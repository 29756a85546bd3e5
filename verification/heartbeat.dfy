/** The service heartbeat: when it fires, how often at most, and the countdown it publishes. */
module Heartbeat {
  import opened Wrappers

  predicate Fires(lastAt: real, interval: real, now: real) {
    lastAt > 0.0 && now - lastAt >= interval
  }

  /** `last_at` after a tick: a clock that was never set is set without firing. */
  function NextLast(lastAt: real, interval: real, now: real): real {
    if lastAt <= 0.0 || Fires(lastAt, interval, now) then now else lastAt
  }

  /** Published seconds until the next heartbeat. */
  function Countdown(lastAt: real, interval: real, now: real): real {
    if lastAt > 0.0 then (if lastAt + interval - now > 0.0 then lastAt + interval - now else 0.0) else interval
  }

  /** At least the configured refresh (a missing or zero one counts as the default) and the probe interval. */
  function EffectiveInterval(refresh: Option<real>, default: real, probe: real): (interval: real)
    ensures interval >= probe
    ensures refresh.Some? && refresh.value > 0.0 ==> interval >= refresh.value
    ensures default > 0.0 && (refresh.Some? ==> refresh.value >= 0.0) ==> interval > 0.0
    ensures refresh.None? || refresh.value == 0.0 ==> interval >= default
    ensures || interval == probe
            || (refresh.Some? && refresh.value != 0.0 && interval == refresh.value)
            || ((refresh.None? || refresh.value == 0.0) && interval == default)
  {
    var hr := if refresh.Some? && refresh.value != 0.0 then refresh.value else default;
    if hr < probe then probe else hr
  }

  /** The times among `times` at which the clock fires. */
  function FireTimes(lastAt: real, interval: real, times: seq<real>): seq<real>
    decreases |times|
  {
    if times == [] then []
    else
      (if Fires(lastAt, interval, times[0]) then [times[0]] else [])
        + FireTimes(NextLast(lastAt, interval, times[0]), interval, times[1..])
  }

  ghost predicate NonDecreasing(times: seq<real>) {
    forall i, j :: 0 <= i < j < |times| ==> times[i] <= times[j]
  }

  class ServiceHeartbeatClock {
    const intervalSec: real
    var lastAt: real

    constructor (intervalSec: real, lastAt: real)
      ensures this.intervalSec == intervalSec && this.lastAt == lastAt
    {
      this.intervalSec, this.lastAt := intervalSec, lastAt;
    }

    method Tick(now: real) returns (fired: bool)
      modifies this
      ensures fired == old(Fires(lastAt, intervalSec, now)) && lastAt == old(NextLast(lastAt, intervalSec, now))
    {
      if lastAt <= 0.0 {
        lastAt := now;
        return false;
      }
      if now - lastAt >= intervalSec {
        lastAt := now;
        return true;
      }
      return false;
    }

    /** The main loop's use of the clock over a whole run. */
    method TickAll(times: seq<real>) returns (fires: seq<real>)
      modifies this
      ensures fires == FireTimes(old(lastAt), intervalSec, times)
    {
      fires := [];
      for k := 0 to |times|
        invariant fires + FireTimes(lastAt, intervalSec, times[k..]) == FireTimes(old(lastAt), intervalSec, times)
      {
        assert times[k..][0] == times[k] && times[k..][1..] == times[k + 1..];
        var fired := Tick(times[k]);
        if fired {
          fires := fires + [times[k]];
        }
      }
    }
  }

  /** The first fire is an interval after `origin`, and fires keep an interval between them. */
  ghost predicate Spaced(fires: seq<real>, interval: real, origin: real) {
    forall k :: 0 <= k < |fires| ==> Previous(fires, origin, k) + interval <= fires[k]
  }

  function Previous(fires: seq<real>, origin: real, k: nat): real
    requires k < |fires|
  {
    if k == 0 then origin else fires[k - 1]
  }

  /** When the clock starts to count: when it was set, or else at the first tick. */
  function Origin(lastAt: real, times: seq<real>): real
    requires times != []
  {
    if lastAt > 0.0 then lastAt else times[0]
  }

  lemma {:induction false} FiresAreSpaced(lastAt: real, interval: real, times: seq<real>)
    requires NonDecreasing(times) && times != []
    ensures Spaced(FireTimes(lastAt, interval, times), interval, Origin(lastAt, times))
    ensures forall t :: t in FireTimes(lastAt, interval, times) ==> t in times
    decreases |times|
  {
    var next := NextLast(lastAt, interval, times[0]);
    var rest := FireTimes(next, interval, times[1..]);
    var fires := FireTimes(lastAt, interval, times);
    assert fires == (if Fires(lastAt, interval, times[0]) then [times[0]] else []) + rest;
    if |times| > 1 {
      FiresAreSpaced(next, interval, times[1..]);
      assert times[0] <= times[1] == times[1..][0];
      forall k | 0 <= k < |rest|
        ensures !Fires(lastAt, interval, times[0]) ==> Previous(rest, Origin(lastAt, times), k) + interval <= rest[k]
        ensures Previous(rest, next, k) + interval <= rest[k]
      {
        assert Previous(rest, Origin(next, times[1..]), k) + interval <= rest[k];
      }
    }
  }

  /** No beat is missed: less than an interval before every tick lies a fire, or the time the clock started to count. */
  lemma {:induction false} NoBeatMissed(lastAt: real, interval: real, times: seq<real>, k: nat) returns (beat: real)
    requires interval > 0.0 && NonDecreasing(times) && k < |times| && lastAt <= times[0] && 0.0 < times[0]
    ensures beat == Origin(lastAt, times) || beat in FireTimes(lastAt, interval, times)
    ensures beat <= times[k] < beat + interval
    decreases |times|
  {
    var next := NextLast(lastAt, interval, times[0]);
    var rest := FireTimes(next, interval, times[1..]);
    assert FireTimes(lastAt, interval, times)
        == (if Fires(lastAt, interval, times[0]) then [times[0]] else []) + rest;
    if k == 0 {
      beat := next;
    } else {
      assert times[0] <= times[1];
      beat := NoBeatMissed(next, interval, times[1..], k - 1);
    }
  }

  /** `n` intervals after `origin`. */
  function Ahead(origin: real, interval: real, n: nat): real {
    if n == 0 then origin else Ahead(origin, interval, n - 1) + interval
  }

  lemma {:induction false} AheadIsLinear(origin: real, interval: real, n: nat)
    ensures Ahead(origin, interval, n) == origin + n as real * interval
  {
    if n > 0 {
      AheadIsLinear(origin, interval, n - 1);
      assert n as real * interval == (n - 1) as real * interval + interval;
    }
  }

  lemma {:induction false} SpacedCount(fires: seq<real>, interval: real, origin: real, k: nat)
    requires Spaced(fires, interval, origin) && k < |fires|
    ensures fires[k] >= Ahead(origin, interval, k + 1)
    decreases k
  {
    if k > 0 {
      SpacedCount(fires, interval, origin, k - 1);
      assert Previous(fires, origin, k) == fires[k - 1];
    } else {
      assert Previous(fires, origin, 0) == origin;
    }
  }

  lemma {:induction false} FireTotal(lastAt: real, interval: real, times: seq<real>, end: real)
    requires NonDecreasing(times) && times != [] && times[|times| - 1] <= end
    ensures var n := |FireTimes(lastAt, interval, times)|;
      n > 0 ==> Ahead(Origin(lastAt, times), interval, n) <= end
  {
    var fires := FireTimes(lastAt, interval, times);
    FiresAreSpaced(lastAt, interval, times);
    if fires != [] {
      var n := |fires|;
      SpacedCount(fires, interval, Origin(lastAt, times), n - 1);
      assert fires[n - 1] in fires;
      var k :| 0 <= k < |times| && times[k] == fires[n - 1];
      assert times[k] <= times[|times| - 1];
    }
  }

  /** Between the moment the clock is set and any later time at most floor(elapsed / interval) heartbeats fire. */
  lemma {:induction false} FireRate(lastAt: real, interval: real, times: seq<real>, end: real)
    requires interval > 0.0 && NonDecreasing(times) && times != [] && times[|times| - 1] <= end
    requires lastAt <= end
    ensures |FireTimes(lastAt, interval, times)| <= ((end - Origin(lastAt, times)) / interval).Floor
  {
    FireTotal(lastAt, interval, times, end);
    assert times[0] <= times[|times| - 1];
    var n := |FireTimes(lastAt, interval, times)|;
    AheadIsLinear(Origin(lastAt, times), interval, n);
    Quotient(n, interval, end - Origin(lastAt, times));
  }

  lemma {:induction false} Quotient(n: nat, interval: real, elapsed: real)
    requires interval > 0.0 && elapsed >= 0.0 && (n > 0 ==> n as real * interval <= elapsed)
    ensures n <= (elapsed / interval).Floor
  {
    var q := elapsed / interval;
    assert q * interval == elapsed;
    assert q < n as real ==> q * interval < n as real * interval;
  }

  /** The published countdown is zero exactly when the next tick fires; the one exception is a clock that was never
      set with a zero interval, which shows zero and does not fire. */
  lemma {:induction false} CountdownIff(lastAt: real, interval: real, now: real)
    ensures (Countdown(lastAt, interval, now) == 0.0 <==> Fires(lastAt, interval, now))
       <==> !(lastAt <= 0.0 && interval == 0.0)
  {
  }

  /** The countdown of a clock that was set tells the time of the next fire: a tick from now on fires exactly if the
      countdown has run out by then. A clock that was never set shows the whole interval. */
  lemma {:induction false} CountdownTells(lastAt: real, interval: real, now: real, later: real)
    requires now <= later
    ensures lastAt > 0.0 ==>
              (Fires(lastAt, interval, later) <==> later >= now + Countdown(lastAt, interval, now))
    ensures lastAt <= 0.0 ==> Countdown(lastAt, interval, now) == interval && !Fires(lastAt, interval, later)
  {
  }
}
