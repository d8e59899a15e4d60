/** The fixed-window limiter on metrics.push, and the sliding bound it really gives. */
module MetricsLimiter {
  type Device = string

  const MAX_METRICS_PER_MIN: nat := 12
  const WINDOW_MS: int := 60_000

  /** Two whole windows less one: the push that opens a window is more than a
      window older than any push of the next. */
  const PER_ANY_MINUTE: nat := 2 * MAX_METRICS_PER_MIN - 1

  datatype Rate = Rate(count: nat, windowStart: int)

  function Bump(r: Rate, now: int): Rate {
    if now - r.windowStart > WINDOW_MS then Rate(1, now) else Rate(r.count + 1, r.windowStart)
  }

  function RateOf(rates: map<Device, Rate>, device: Device, now: int): Rate {
    if device in rates then rates[device] else Rate(0, now)
  }

  /** The new table, and whether the sample goes on. */
  function PushMetrics(rates: map<Device, Rate>, device: Device, now: int): (map<Device, Rate>, bool) {
    var r := Bump(RateOf(rates, device, now), now);
    (rates[device := r], r.count <= MAX_METRICS_PER_MIN)
  }

  class MetricsRates {
    var metricsRate: map<Device, Rate>

    constructor ()
      ensures metricsRate == map[]
    {
      metricsRate := map[];
    }

    method Push(device: Device, now: int) returns (accepted: bool)
      modifies this
      ensures (metricsRate, accepted) == PushMetrics(old(metricsRate), device, now)
    {
      var count, windowStart := 0, now;
      if device in metricsRate {
        count, windowStart := metricsRate[device].count, metricsRate[device].windowStart;
      }
      if now - windowStart > WINDOW_MS {
        count := 0;
        windowStart := now;
      }
      count := count + 1;
      metricsRate := metricsRate[device := Rate(count, windowStart)];
      accepted := !(count > MAX_METRICS_PER_MIN);
    }
  }

  // ---------- runs ----------

  datatype Arrival = Arrival(device: Device, at: int)

  predicate Ordered(arrivals: seq<Arrival>) {
    forall i, j :: 0 <= i < j < |arrivals| ==> arrivals[i].at <= arrivals[j].at
  }

  function Rates(arrivals: seq<Arrival>): map<Device, Rate> {
    if arrivals == [] then map[]
    else
      var a := arrivals[|arrivals| - 1];
      PushMetrics(Rates(arrivals[..|arrivals| - 1]), a.device, a.at).0
  }

  /** The times of a device's accepted pushes. */
  function Accepted(arrivals: seq<Arrival>, device: Device): seq<int> {
    if arrivals == [] then []
    else
      var pre := arrivals[..|arrivals| - 1];
      var a := arrivals[|arrivals| - 1];
      Accepted(pre, device) +
      (if a.device == device && PushMetrics(Rates(pre), device, a.at).1 then [a.at] else [])
  }

  // ---------- what a device's accepted pushes look like ----------

  /** Accepted push number i comes more than a whole window after number
      i - PER_ANY_MINUTE. */
  predicate Spread(times: seq<int>) {
    forall i :: PER_ANY_MINUTE <= i < |times| ==> times[i] - times[i - PER_ANY_MINUTE] > WINDOW_MS
  }

  function Min(a: nat, b: nat): nat { if a < b then a else b }

  /** The last now pushes lie in the current window and the prev before them in an
      earlier one that started more than a window before. */
  ghost predicate Layered(times: seq<int>, r: Rate, prevStart: int, prev: nat) {
    var now := Min(r.count, MAX_METRICS_PER_MIN);
    && prev <= MAX_METRICS_PER_MIN
    && now <= |times|
    && r.windowStart - prevStart > WINDOW_MS
    && (forall i :: |times| - now <= i < |times| ==> r.windowStart <= times[i] <= r.windowStart + WINDOW_MS)
    && (forall i :: 0 <= i < |times| - now ==> times[i] < r.windowStart)
    && (forall i :: 0 <= i < |times| && i <= |times| - now ==> times[i] <= r.windowStart)
    && (forall i :: 0 <= i < |times| - now && i <= |times| - now - prev ==> times[i] <= prevStart)
  }

  ghost predicate DeviceOk(times: seq<int>, rates: map<Device, Rate>, device: Device) {
    && Spread(times)
    && (device !in rates ==> times == [])
    && (device in rates ==>
          rates[device].count > 0 && exists prevStart, prev :: Layered(times, rates[device], prevStart, prev))
  }

  lemma FirstPush(device: Device, now: int)
    ensures Layered([now], Rate(1, now), now - WINDOW_MS - 1, 0)
  {
  }

  lemma SameWindow(times: seq<int>, r: Rate, prevStart: int, prev: nat, now: int)
    requires Spread(times) && Layered(times, r, prevStart, prev) && r.count > 0
    requires r.windowStart <= now <= r.windowStart + WINDOW_MS
    ensures var times' := times + (if r.count < MAX_METRICS_PER_MIN then [now] else []);
            Spread(times') && Layered(times', Rate(r.count + 1, r.windowStart), prevStart, prev)
  {
  }

  lemma NewWindow(times: seq<int>, r: Rate, prevStart: int, prev: nat, now: int)
    requires Spread(times) && Layered(times, r, prevStart, prev) && now - r.windowStart > WINDOW_MS
    ensures Spread(times + [now])
          && Layered(times + [now], Rate(1, now), r.windowStart, Min(r.count, MAX_METRICS_PER_MIN))
  {
  }

  lemma PushKeeps(times: seq<int>, rates: map<Device, Rate>, device: Device, now: int)
    requires DeviceOk(times, rates, device)
    requires device in rates ==> rates[device].windowStart <= now
    ensures var (rates', ok) := PushMetrics(rates, device, now);
            DeviceOk(times + (if ok then [now] else []), rates', device)
  {
    var (rates', ok) := PushMetrics(rates, device, now);
    var times' := times + (if ok then [now] else []);
    if device !in rates {
      FirstPush(device, now);
      assert times' == [now];
      assert Layered(times', rates'[device], now - WINDOW_MS - 1, 0);
    } else {
      var r := rates[device];
      var prevStart, prev :| Layered(times, r, prevStart, prev);
      if now - r.windowStart > WINDOW_MS {
        NewWindow(times, r, prevStart, prev, now);
        assert Layered(times', rates'[device], r.windowStart, Min(r.count, MAX_METRICS_PER_MIN));
      } else {
        SameWindow(times, r, prevStart, prev, now);
        assert Layered(times', rates'[device], prevStart, prev);
      }
    }
  }

  lemma {:induction false} RunKeeps(arrivals: seq<Arrival>, device: Device)
    requires Ordered(arrivals)
    ensures DeviceOk(Accepted(arrivals, device), Rates(arrivals), device)
    ensures forall d :: d in Rates(arrivals) ==>
          arrivals != [] && Rates(arrivals)[d].windowStart <= arrivals[|arrivals| - 1].at
  {
    if arrivals != [] {
      var n := |arrivals| - 1;
      RunKeeps(arrivals[..n], device);
      assert n > 0 ==> arrivals[n - 1].at <= arrivals[n].at;
      if arrivals[n].device == device {
        PushKeeps(Accepted(arrivals[..n], device), Rates(arrivals[..n]), device, arrivals[n].at);
      } else {
        assert Accepted(arrivals, device) == Accepted(arrivals[..n], device);
      }
    }
  }

  // ---------- the bounds ----------

  function InInterval(times: seq<int>, lo: int, hi: int): nat {
    if times == [] then 0
    else InInterval(times[..|times| - 1], lo, hi) + (if lo <= times[|times| - 1] <= hi then 1 else 0)
  }

  lemma {:induction false} BelowFirst(times: seq<int>, lo: int, hi: int, p: nat)
    requires p <= |times| && forall i :: 0 <= i < p ==> times[i] < lo
    ensures InInterval(times, lo, hi) <= |times| - p
  {
    if times != [] {
      BelowFirst(times[..|times| - 1], lo, hi, if p < |times| then p else |times| - 1);
    }
  }

  predicate Sorted(times: seq<int>) {
    forall i, j :: 0 <= i < j < |times| ==> times[i] <= times[j]
  }

  lemma {:induction false} AcceptedSorted(arrivals: seq<Arrival>, device: Device)
    requires Ordered(arrivals)
    ensures Sorted(Accepted(arrivals, device))
    ensures forall i :: 0 <= i < |Accepted(arrivals, device)| ==>
      arrivals != [] && Accepted(arrivals, device)[i] <= arrivals[|arrivals| - 1].at
  {
    if arrivals != [] {
      var n := |arrivals| - 1;
      AcceptedSorted(arrivals[..n], device);
      assert n > 0 ==> arrivals[n - 1].at <= arrivals[n].at;
    }
  }

  lemma {:induction false} SpreadBound(times: seq<int>, lo: int)
    requires Sorted(times) && Spread(times)
    ensures InInterval(times, lo, lo + WINDOW_MS) <= PER_ANY_MINUTE
  {
    if times != [] {
      var n := |times| - 1;
      if lo <= times[n] <= lo + WINDOW_MS {
        if n >= PER_ANY_MINUTE {
          assert times[n - PER_ANY_MINUTE] < lo;
          BelowFirst(times, lo, lo + WINDOW_MS, n + 1 - PER_ANY_MINUTE);
        } else {
          BelowFirst(times, lo, lo + WINDOW_MS, 0);
        }
      } else {
        SpreadBound(times[..n], lo);
      }
    }
  }

  /** Any closed minute, wherever it starts, sees at most 23 accepted pushes of a
      device, and the current window at most 12. */
  lemma MinuteBound(arrivals: seq<Arrival>, device: Device, lo: int)
    requires Ordered(arrivals)
    ensures InInterval(Accepted(arrivals, device), lo, lo + 60_000) <= 23
    ensures var times, rates := Accepted(arrivals, device), Rates(arrivals);
            device in rates ==>
              var now := Min(rates[device].count, 12);
              && now <= |times|
              && (forall i :: 0 <= i < |times| ==> (rates[device].windowStart <= times[i] <==> |times| - now <= i))
  {
    RunKeeps(arrivals, device);
    AcceptedSorted(arrivals, device);
    SpreadBound(Accepted(arrivals, device), lo);
  }

  lemma {:induction false} CountFrom(times: seq<int>, lo: int, hi: int, p: nat)
    requires p <= |times|
    requires forall i :: 0 <= i < |times| ==> (lo <= times[i] <= hi <==> p <= i)
    ensures InInterval(times, lo, hi) == |times| - p
  {
    if times != [] {
      CountFrom(times[..|times| - 1], lo, hi, if p < |times| then p else |times| - 1);
    }
  }

  /** Exactly which pushes go on, whatever was dropped before and whatever other devices
      send: the first of a device, one that comes more than 60 s after the device's window
      began, and within a window one that finds fewer than 12 accepted so far. A window
      begins with an accepted push. */
  lemma AcceptedIff(arrivals: seq<Arrival>, device: Device, at: int)
    requires Ordered(arrivals + [Arrival(device, at)])
    ensures var rates, times := Rates(arrivals), Accepted(arrivals, device);
            && (times == [] <==> device !in rates)
            && (device !in rates ==> PushMetrics(rates, device, at).1)
            && (device in rates ==>
                  var start := rates[device].windowStart;
                  && start in times
                  && (PushMetrics(rates, device, at).1 <==> at - start > 60_000 || InInterval(times, start, at) < 12))
  {
    var rates, times := Rates(arrivals), Accepted(arrivals, device);
    var all := arrivals + [Arrival(device, at)];
    assert forall i :: 0 <= i < |arrivals| ==> all[i] == arrivals[i] && all[i].at <= all[|arrivals|].at;
    assert Ordered(arrivals);
    RunKeeps(arrivals, device);
    WindowsBegin(arrivals, device);
    AcceptedSorted(arrivals, device);
    if device in rates {
      var now := Min(rates[device].count, MAX_METRICS_PER_MIN);
      var prevStart, prev :| Layered(times, rates[device], prevStart, prev);
      CountFrom(times, rates[device].windowStart, at, |times| - now);
    }
  }

  lemma {:induction false} WindowsBegin(arrivals: seq<Arrival>, device: Device)
    requires Ordered(arrivals)
    ensures var rates, times := Rates(arrivals), Accepted(arrivals, device);
            && (device in rates <==> times != [])
            && (device in rates ==> rates[device].windowStart in times)
  {
    if arrivals != [] {
      var n := |arrivals| - 1;
      WindowsBegin(arrivals[..n], device);
    }
  }

  /** n pushes of one device at one moment. */
  function Burst(device: Device, at: int, n: nat): seq<Arrival> {
    seq(n, k => Arrival(device, at))
  }

  lemma OneMore(pre: seq<Arrival>, device: Device, at: int, lo: int, hi: int)
    requires lo <= at <= hi
    requires PushMetrics(Rates(pre), device, at).1
    ensures var all := pre + [Arrival(device, at)];
            && Rates(all) == PushMetrics(Rates(pre), device, at).0
            && Accepted(all, device) == Accepted(pre, device) + [at]
            && InInterval(Accepted(all, device), lo, hi) == InInterval(Accepted(pre, device), lo, hi) + 1
  {
    var all := pre + [Arrival(device, at)];
    assert all[..|pre|] == pre;
    assert (Accepted(pre, device) + [at])[..|Accepted(pre, device)|] == Accepted(pre, device);
  }

  lemma {:induction false} BurstInWindow(pre: seq<Arrival>, device: Device, at: int, n: nat, lo: int, hi: int)
    requires device in Rates(pre) && 0 <= at - Rates(pre)[device].windowStart <= WINDOW_MS
    requires Rates(pre)[device].count + n <= MAX_METRICS_PER_MIN
    requires lo <= at <= hi
    ensures var all := pre + Burst(device, at, n);
            && device in Rates(all)
            && Rates(all)[device] == Rate(Rates(pre)[device].count + n, Rates(pre)[device].windowStart)
            && InInterval(Accepted(all, device), lo, hi) == InInterval(Accepted(pre, device), lo, hi) + n
  {
    if n == 0 {
      assert pre + Burst(device, at, n) == pre;
    } else {
      var less := pre + Burst(device, at, n - 1);
      assert pre + Burst(device, at, n) == less + [Arrival(device, at)];
      BurstInWindow(pre, device, at, n - 1, lo, hi);
      OneMore(less, device, at, lo, hi);
    }
  }

  /** One push, then twelve just inside and twelve just after its window. */
  function Straddle(device: Device): seq<Arrival> {
    [Arrival(device, 0)] + Burst(device, 60_000, 11) + [Arrival(device, 60_001)] + Burst(device, 60_001, 11)
  }

  lemma FirstOnly(device: Device)
    ensures Accepted([Arrival(device, 0)], device) == [0]
    ensures Rates([Arrival(device, 0)]) == map[device := Rate(1, 0)]
    ensures InInterval([0], 60_000, 120_000) == 0
  {
  }

  lemma InsideOf(device: Device)
    ensures var late := [Arrival(device, 0)] + Burst(device, 60_000, 11);
            && device in Rates(late) && Rates(late)[device] == Rate(12, 0)
            && InInterval(Accepted(late, device), 60_000, 120_000) == 11
  {
    FirstOnly(device);
    BurstInWindow([Arrival(device, 0)], device, 60_000, 11, 60_000, 120_000);
  }

  lemma StraddleOrdered(device: Device)
    ensures Ordered(Straddle(device))
  {
  }

  /** 23 in a minute do happen: the bound is exact. */
  lemma MinuteBoundIsReached(device: Device)
    ensures Ordered(Straddle(device))
    ensures InInterval(Accepted(Straddle(device), device), 60_000, 120_000) == 23
  {
    StraddleOrdered(device);
    var late := [Arrival(device, 0)] + Burst(device, 60_000, 11);
    InsideOf(device);
    OneMore(late, device, 60_001, 60_000, 120_000);
    BurstInWindow(late + [Arrival(device, 60_001)], device, 60_001, 11, 60_000, 120_000);
  }
}
