/** The per-client fixed-window rate limiter of `rate_limit_middleware`
    (backend/main.py). Time is an integer number of seconds passed in by the
    caller; `RATE_LIMIT` and `RATE_LIMIT_PERIOD` are fixed when the limiter is
    built. */
module RateLimit {

  /** A client's entry in `request_counts`. */
  datatype Window = Window(count: int, resetTime: int)

  /** The entry `defaultdict` creates for a client it has not seen. */
  const Unseen := Window(0, 0)

  /** One request at time `now`: a window whose reset time has passed is
      restarted first, then the request is counted, rejected or not. */
  function Charge(w: Window, now: int, period: int): Window {
    var base := if now > w.resetTime then Window(0, now + period) else w;
    base.(count := base.count + 1)
  }

  /** Whether a request that left its window at `w` reaches `call_next`. */
  predicate Admitted(w: Window, limit: int) {
    w.count <= limit
  }

  /** Requests from one client at the given times: the final window and how
      many of the requests got through. */
  function Replay(w: Window, times: seq<int>, limit: int, period: int): (Window, nat)
    decreases |times|
  {
    if times == [] then (w, 0)
    else
      var w1 := Charge(w, times[0], period);
      var rest := Replay(w1, times[1..], limit, period);
      (rest.0, rest.1 + if Admitted(w1, limit) then 1 else 0)
  }

  /** How many of `n` further requests fit under `limit` when `count` are
      already counted. */
  function Room(count: int, n: nat, limit: int): nat {
    if limit - count <= 0 then 0 else if n <= limit - count then n else limit - count
  }

  /** While no request passes the reset time, the window keeps its reset time,
      every request adds one to the count, and exactly the requests that keep
      the count at or under the limit get through. */
  lemma {:induction false} ReplayWithinWindow(w: Window, times: seq<int>, limit: int, period: int)
    requires forall i :: 0 <= i < |times| ==> times[i] <= w.resetTime
    decreases |times|
    ensures Replay(w, times, limit, period).0 == Window(w.count + |times|, w.resetTime)
    ensures Replay(w, times, limit, period).1 == Room(w.count, |times|, limit)
  {
    if times != [] {
      var w1 := Charge(w, times[0], period);
      assert w1 == Window(w.count + 1, w.resetTime);
      ReplayWithinWindow(w1, times[1..], limit, period);
    }
  }

  /** Within a window, request `j` (counting from 0) gets through exactly when
      the count it brings the window to, `w.count + j + 1`, is at most the limit. */
  lemma RequestPassesIff(w: Window, times: seq<int>, limit: int, period: int, j: int)
    requires forall i :: 0 <= i < |times| ==> times[i] <= w.resetTime
    requires 0 <= j < |times|
    ensures Replay(w, times[..j + 1], limit, period).1 == Replay(w, times[..j], limit, period).1 + 1
            <==> w.count + j + 1 <= limit
  {
    ReplayWithinWindow(w, times[..j + 1], limit, period);
    ReplayWithinWindow(w, times[..j], limit, period);
  }

  /** Within one window, opened by a request after the previous window ended and
      followed only by requests no later than its reset time, at most
      `RATE_LIMIT` requests get through: exactly the first `RATE_LIMIT` of them. */
  lemma {:induction false} AtMostLimitPerWindow(w: Window, times: seq<int>, limit: int, period: int)
    requires |times| > 0 && times[0] > w.resetTime
    requires forall i :: 1 <= i < |times| ==> times[i] <= times[0] + period
    ensures Replay(w, times, limit, period).1 == Room(0, |times|, limit)
    ensures limit >= 0 ==> Replay(w, times, limit, period).1 <= limit
  {
    var w1 := Charge(w, times[0], period);
    assert w1 == Window(1, times[0] + period);
    ReplayWithinWindow(w1, times[1..], limit, period);
  }

  class RateLimiter {
    /** `RATE_LIMIT`: requests admitted per window. */
    const limit: int
    /** `RATE_LIMIT_PERIOD`: length of a window in seconds. */
    const period: int
    /** `request_counts`: the window of every client seen so far. */
    var windows: map<string, Window>

    constructor (limit: int, period: int)
      ensures this.limit == limit && this.period == period && windows == map[]
    {
      this.limit := limit;
      this.period := period;
      windows := map[];
    }

    /** The window of `client`, as the `defaultdict` would produce it. */
    function WindowOf(client: string): Window
      reads this
    {
      if client in windows then windows[client] else Unseen
    }

    /** The counting part of `rate_limit_middleware`: `allowed` is false exactly
        when the request is answered with 429 instead of reaching `call_next`.
        The request is counted either way; no other client's entry changes. */
    method Admit(client: string, now: int) returns (allowed: bool)
      modifies this
      ensures windows == old(windows)[client := Charge(old(WindowOf(client)), now, period)]
      ensures now > old(WindowOf(client)).resetTime ==> WindowOf(client) == Window(1, now + period)
      ensures now <= old(WindowOf(client)).resetTime ==>
                WindowOf(client) == old(WindowOf(client)).(count := old(WindowOf(client)).count + 1)
      ensures allowed <==> WindowOf(client).count <= limit
      ensures forall c :: c != client ==> WindowOf(c) == old(WindowOf(c))
    {
      var w := WindowOf(client);
      if now > w.resetTime {
        w := Window(0, now + period);
      }
      w := w.(count := w.count + 1);
      windows := windows[client := w];
      allowed := w.count <= limit;
    }
  }
}
