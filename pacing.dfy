/**
  Request pacing in client.py: `_wait_for_request_slot` keeps outbound requests at least
  `_min_request_interval` seconds apart. The event loop's clock is abstract: a call reads it
  once on entry (`now`) and, when it sleeps, once more on waking (`wake`).
 */
module RequestPacing {

  /** `max(min_request_interval, 0.0)` */
  function ClampInterval(minRequestInterval: real): (interval: real)
    ensures interval >= 0.0 && interval >= minRequestInterval
    ensures interval == minRequestInterval || interval == 0.0
  {
    if minRequestInterval >= 0.0 then minRequestInterval else 0.0
  }

  /** What is still to wait, `interval - (now - last)`; positive when the last request is too recent. */
  function WaitTime(interval: real, last: real, now: real): real {
    interval - (now - last)
  }

  /** Assumed of the event loop: a call that sleeps wakes no earlier than `asyncio.sleep` asked it to. */
  predicate SleptEnough(interval: real, last: real, now: real, wake: real) {
    interval > 0.0 && WaitTime(interval, last, now) > 0.0 ==> wake >= now + WaitTime(interval, last, now)
  }

  /** How long one call sleeps: nothing when pacing is off or the last request is old enough. */
  function SleepFor(interval: real, last: real, now: real): real {
    if interval <= 0.0 || WaitTime(interval, last, now) <= 0.0 then 0.0 else WaitTime(interval, last, now)
  }

  /** The `_last_request_time` one call leaves behind. */
  function SlotTime(interval: real, last: real, now: real, wake: real): real {
    if interval <= 0.0 then last
    else if WaitTime(interval, last, now) > 0.0 then wake
    else now
  }

  /** A call sleeps exactly when pacing is on and the previous request is less than an interval ago. */
  lemma SleepsIffTooSoon(interval: real, last: real, now: real)
    ensures SleepFor(interval, last, now) >= 0.0
    ensures SleepFor(interval, last, now) > 0.0 <==> interval > 0.0 && now < last + interval
  {
  }

  /** With pacing off the slot is left as it was; with pacing on the new slot is at least one interval after the old one. */
  lemma SlotSpacing(interval: real, last: real, now: real, wake: real)
    requires SleptEnough(interval, last, now, wake)
    ensures interval <= 0.0 ==> SlotTime(interval, last, now, wake) == last
    ensures interval > 0.0 ==> SlotTime(interval, last, now, wake) >= last + interval
  {
  }

  /** On a clock that never goes back, the slot recorded is the latest reading of the call. */
  lemma SlotIsLatestReading(interval: real, last: real, now: real, wake: real)
    requires interval > 0.0 && now <= wake
    ensures SlotTime(interval, last, now, wake) == if SleepFor(interval, last, now) > 0.0 then wake else now
  {
  }

  /** One call's clock readings. */
  datatype Readings = Readings(now: real, wake: real)

  /** The `_last_request_time` after each call of a run, starting from `last`. */
  function Slots(interval: real, last: real, run: seq<Readings>): (slots: seq<real>)
    ensures |slots| == |run|
    decreases |run|
  {
    if run == [] then []
    else
      var next := SlotTime(interval, last, run[0].now, run[0].wake);
      [next] + Slots(interval, next, run[1..])
  }

  /** Every call of the run sleeps as long as it asks to. */
  predicate HonestRun(interval: real, last: real, run: seq<Readings>)
    decreases |run|
  {
    run != [] ==>
      && SleptEnough(interval, last, run[0].now, run[0].wake)
      && HonestRun(interval, SlotTime(interval, last, run[0].now, run[0].wake), run[1..])
  }

  /** Over any run of paced calls, consecutive request slots are at least one interval apart. */
  lemma {:induction false} RunIsSpaced(interval: real, last: real, run: seq<Readings>)
    requires interval > 0.0 && HonestRun(interval, last, run)
    ensures var slots := Slots(interval, last, run);
      (|slots| > 0 ==> slots[0] >= last + interval)
      && forall i :: 0 < i < |slots| ==> slots[i] >= slots[i - 1] + interval
    decreases |run|
  {
    if run != [] {
      var next := SlotTime(interval, last, run[0].now, run[0].wake);
      SlotSpacing(interval, last, run[0].now, run[0].wake);
      RunIsSpaced(interval, next, run[1..]);
      var slots := Slots(interval, last, run);
      assert slots == [next] + Slots(interval, next, run[1..]);
      forall i | 0 < i < |slots|
        ensures slots[i] >= slots[i - 1] + interval
      {
        if i > 1 {
          assert slots[i] == Slots(interval, next, run[1..])[i - 1];
          assert slots[i - 1] == Slots(interval, next, run[1..])[i - 2];
        }
      }
    }
  }

  /** The client's pacing state. */
  class RequestPacer {
    /** `_min_request_interval`, fixed at construction. */
    const interval: real
    /** `_last_request_time`: the clock reading of the last request admitted. */
    var lastRequestTime: real

    constructor(minRequestInterval: real)
      ensures interval == ClampInterval(minRequestInterval) && interval >= 0.0
      ensures lastRequestTime == 0.0
    {
      interval := ClampInterval(minRequestInterval);
      lastRequestTime := 0.0;
    }

    /**
      `_wait_for_request_slot`: returns at once when pacing is off; otherwise sleeps for what
      remains of the interval, if anything, and records the time of the request it admits.
     */
    method WaitForRequestSlot(now: real, wake: real) returns (slept: real)
      requires SleptEnough(interval, lastRequestTime, now, wake)
      modifies this
      ensures slept == SleepFor(interval, old(lastRequestTime), now)
      ensures lastRequestTime == SlotTime(interval, old(lastRequestTime), now, wake)
      ensures interval <= 0.0 ==> lastRequestTime == old(lastRequestTime)
      ensures interval > 0.0 ==> lastRequestTime >= old(lastRequestTime) + interval
    {
      slept := 0.0;
      if interval <= 0.0 {
        return;
      }
      var current := now;
      var waitTime := interval - (current - lastRequestTime);
      if waitTime > 0.0 {
        slept := waitTime;
        current := wake;
      }
      lastRequestTime := current;
    }
  }
}
