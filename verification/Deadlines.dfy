/**
  Absolute monotonic deadlines on a seconds/nanoseconds clock, in 64-bit machine arithmetic.
  Both C files carry their own copy of this code; the contracts state what the copies compute
  in unbounded nanoseconds. The newtypes make every addition and multiplication an overflow
  obligation.
 */
module Deadlines {
  import opened Bytes

  const INT64_MAX: int64 := 0x7fff_ffff_ffff_ffff
  const NS_PER_MS: int := 1_000_000
  const NS_PER_SEC: int := 1_000_000_000

  datatype Timespec = Timespec(sec: int64, nsec: int64) {
    predicate Normal() {
      0 <= nsec < 1_000_000_000
    }

    /** The instant in unbounded nanoseconds. */
    function Ns(): int {
      sec as int * NS_PER_SEC + nsec as int
    }
  }

  /** What clock_gettime(CLOCK_MONOTONIC) delivers on a host that has been up for less than 2^51 seconds. */
  predicate IsReading(t: Timespec) {
    t.Normal() && 0 <= t.sec < 0x8_0000_0000_0000
  }

  /** The seconds and nanoseconds of an instant that clock_gettime can deliver. */
  function Reading(now: nat): (r: Option<Timespec>)
    ensures r.Some? ==> IsReading(r.value) && r.value.Ns() == now
  {
    if now / NS_PER_SEC < 0x8_0000_0000_0000
    then Some(Timespec((now / NS_PER_SEC) as int64, (now % NS_PER_SEC) as int64)) else None
  }

  /** Deadlines this code can hold: a reading plus a timeout. */
  predicate IsDeadline(t: Timespec) {
    t.Normal() && 0 <= t.sec < 0x10_0000_0000_0000
  }

  datatype TimeLeft = Left | Expired | ClockError

  /** Smallest number of milliseconds that is not shorter than the given nanoseconds. */
  function CeilMs(ns: nat): nat {
    (ns + NS_PER_MS - 1) / NS_PER_MS
  }

  method MakeDeadline(clock: Option<Timespec>, timeoutMs: int64) returns (ok: bool, deadline: Timespec)
    requires clock.Some? ==> IsReading(clock.value)
    requires 0 <= timeoutMs < 0x8_0000_0000_0000
    ensures ok <==> clock.Some?
    ensures ok ==> IsDeadline(deadline) && deadline.Ns() == clock.value.Ns() + timeoutMs as int * NS_PER_MS
  {
    if clock.None? {
      return false, Timespec(0, 0);
    }
    var sec := clock.value.sec + timeoutMs / 1000;
    var nsec := clock.value.nsec + (timeoutMs % 1000) * 1000000;
    if nsec >= 1000000000 {
      sec := sec + 1;
      nsec := nsec - 1000000000;
    }
    ok, deadline := true, Timespec(sec, nsec);
  }

  method Remaining(clock: Option<Timespec>, deadline: Timespec) returns (state: TimeLeft, remaining: Timespec)
    requires clock.Some? ==> IsReading(clock.value)
    requires IsDeadline(deadline)
    ensures state == ClockError <==> clock.None?
    ensures clock.Some? ==> (state == Left <==> clock.value.Ns() < deadline.Ns())
    ensures clock.Some? ==> remaining.Normal() && remaining.Ns() == deadline.Ns() - clock.value.Ns()
    ensures state == Left ==> 0 <= remaining.sec <= deadline.sec
  {
    if clock.None? {
      return ClockError, Timespec(0, 0);
    }
    var sec := deadline.sec - clock.value.sec;
    var nsec := deadline.nsec - clock.value.nsec;
    if nsec < 0 {
      sec := sec - 1;
      nsec := nsec + 1000000000;
    }
    remaining := Timespec(sec, nsec);
    if sec < 0 || (sec == 0 && nsec == 0) {
      return Expired, remaining;
    }
    state := Left;
  }

  /** The argument poll accepts that is nearest to the wanted one and makes it wait. */
  function ClampTimeout(ms: int64): (r: int32)
    ensures 1 <= r
    ensures r as int64 <= ms || ms < 1
    ensures ms as int <= INT_MAX ==> r as int64 >= ms
    ensures ms as int > INT_MAX ==> r as int == INT_MAX
  {
    var atLeastOne := if ms < 1 then 1 else ms;
    if atLeastOne > 0x7fff_ffff then 0x7fff_ffff else atLeastOne as int32
  }

  /** Milliseconds for poll: never shorter than the time left, less than a millisecond longer, never zero. */
  method TimeoutUntil(clock: Option<Timespec>, deadline: Timespec) returns (state: TimeLeft, timeoutMs: int32)
    requires clock.Some? ==> IsReading(clock.value)
    requires IsDeadline(deadline)
    ensures state == ClockError <==> clock.None?
    ensures clock.Some? ==> (state == Left <==> clock.value.Ns() < deadline.Ns())
    ensures state == Left ==>
      var ns := deadline.Ns() - clock.value.Ns();
      timeoutMs as int == (if CeilMs(ns) > INT_MAX then INT_MAX else CeilMs(ns))
    ensures state == Left ==> 1 <= timeoutMs
    ensures state == Left ==> clock.value.Ns() + timeoutMs as int * NS_PER_MS < deadline.Ns() + NS_PER_MS
  {
    var remaining;
    state, remaining := Remaining(clock, deadline);
    timeoutMs := 0;
    if state != Left {
      return;
    }
    var roundedMs: int64 := remaining.sec * 1000 + (remaining.nsec + 999999) / 1000000;
    assert roundedMs as int == CeilMs(remaining.Ns());
    timeoutMs := ClampTimeout(roundedMs);
  }

  /** Monotonic milliseconds, saturating instead of wrapping for every non-negative clock value. */
  method MonotonicMillis(clock: Option<Timespec>) returns (r: int64)
    requires clock.Some? ==> clock.value.Normal() && clock.value.sec >= 0
    ensures clock.None? ==> r == -1
    ensures clock.Some? ==>
      var ms := clock.value.Ns() / NS_PER_MS;
      r as int == if ms > INT64_MAX as int then INT64_MAX as int else ms
  {
    if clock.None? {
      return -1;
    }
    var t := clock.value;
    assert t.Ns() / NS_PER_MS == t.sec as int * 1000 + t.nsec as int / 1000000;
    if t.sec > INT64_MAX / 1000 {
      return INT64_MAX;
    }
    var millis := t.sec * 1000;
    var nanos := t.nsec / 1000000;
    if millis > INT64_MAX - nanos {
      return INT64_MAX;
    }
    r := millis + nanos;
  }
}
