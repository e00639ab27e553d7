/**
 Timers over the monotonic clock (`vrrp_timer.c`). A deadline may carry more
 than a second in its nanosecond field: version 3 adds centiseconds there.
 */
module Timers {

  const NANO: int := 1_000_000_000
  const CENTI: int := 10_000_000

  datatype Timespec = Timespec(sec: int, nsec: int)

  function Nanos(t: Timespec): int {
    t.sec * NANO + t.nsec
  }

  /** What `clock_gettime` returns: normalised, and not the instant zero. */
  predicate ClockReading(t: Timespec) {
    t.sec >= 0 && 0 <= t.nsec < NANO && Nanos(t) > 0
  }

  const ZERO := Timespec(0, 0)

  /** `vrrp_timer_set` with `units` of the protocol version: seconds, or centiseconds in version 3. */
  function Deadline(now: Timespec, version: int, units: int): Timespec {
    if version == 3 then Timespec(now.sec, now.nsec + units * CENTI) else Timespec(now.sec + units, now.nsec)
  }

  /** The length of one unit in nanoseconds. */
  function UnitOf(version: int): int {
    if version == 3 then CENTI else NANO
  }

  /** A deadline in nanoseconds: units are seconds in version 2 and centiseconds in version 3. */
  lemma DeadlineNanos(now: Timespec, version: int, units: int)
    ensures Nanos(Deadline(now, version, units)) == Nanos(now) + units * UnitOf(version)
    ensures Nanos(Deadline(now, version, units))
            == now.sec * 1_000_000_000 + now.nsec + units * (if version == 3 then 10_000_000 else 1_000_000_000)
  {
  }

  predicate Running(ts: Timespec) {
    ts.sec != 0 || ts.nsec != 0
  }

  /**
   When the daemon regards the deadline `ts` as passed: the clock is later,
   or equal to it while the raw nanosecond fields differ by one whole second
   (or the other way round, which a normalised clock excludes).
   */
  predicate Expired(ts: Timespec, now: Timespec) {
    var raw := ts.nsec - now.nsec;
    Nanos(ts) < Nanos(now) || (Nanos(ts) == Nanos(now) && (raw == NANO || raw < 0))
  }

  /**
   `timespec_substract`: `y` is carried in place and comes back as `y1`.
   For all operands the difference is exact, the nanoseconds lie in 0..10^9
   with both ends included, and the sign is that of the difference except for
   a tie that leaves 10^9 nanoseconds.
   */
  method Subtract(x: Timespec, y: Timespec) returns (r: Timespec, y1: Timespec, negative: bool)
    ensures Nanos(r) == Nanos(x) - Nanos(y) && Nanos(y1) == Nanos(y)
    ensures r == Timespec(x.sec - y1.sec, x.nsec - y1.nsec)
    ensures 0 <= r.nsec <= NANO
    ensures negative <==> Nanos(x) < Nanos(y) || (Nanos(x) == Nanos(y) && r.nsec == NANO)
    ensures negative <==> Expired(x, y)
  {
    y1 := y;
    if x.nsec < y1.nsec {
      var n := (y1.nsec - x.nsec) / NANO + 1;
      y1 := Timespec(y1.sec + n, y1.nsec - NANO * n);
    }
    if x.nsec - y1.nsec > NANO {
      var n := (x.nsec - y1.nsec) / NANO;
      y1 := Timespec(y1.sec - n, y1.nsec + NANO * n);
    }
    r := Timespec(x.sec - y1.sec, x.nsec - y1.nsec);
    negative := x.sec < y1.sec;
  }

  /** Against a normalised clock and a non-negative deadline, the tie is the one whole second. */
  lemma ExpiredOnClock(ts: Timespec, now: Timespec)
    requires ClockReading(now) && ts.nsec >= 0
    ensures Expired(ts, now)
            <==> Nanos(ts) < Nanos(now) || (Nanos(ts) == Nanos(now) && ts.nsec - now.nsec == NANO)
  {
    if Nanos(ts) == Nanos(now) {
      assert ts.nsec - now.nsec == (now.sec - ts.sec) * NANO;
    }
  }

  /** `struct vrrp_timer` with its operations; `now` is the clock reading each one takes. */
  class Timer {
    var ts: Timespec
    var delta: Timespec

    constructor ()
      ensures ts == ZERO && delta == ZERO
    {
      ts, delta := ZERO, ZERO;
    }

    method Set(now: Timespec, delay: int, delayCs: int)
      modifies this
      ensures ts == Timespec(now.sec + delay, now.nsec + delayCs * CENTI) && delta == ZERO
    {
      ts := now;
      ts := Timespec(ts.sec + delay, ts.nsec);
      ts := Timespec(ts.sec, ts.nsec + delayCs * CENTI);
      delta := ZERO;
    }

    method Clear()
      modifies this
      ensures ts == ZERO && delta == ZERO
    {
      ts, delta := ZERO, ZERO;
    }

    method IsRunning() returns (r: bool)
      ensures r == Running(ts)
    {
      r := ts.sec != 0 || ts.nsec != 0;
    }

    /**
     Rebuilds the deadline from the carried clock copy plus the difference;
     the pair that results is the one that was there.
     */
    method Update(now: Timespec) returns (expired: bool)
      modifies this
      ensures ts == old(ts)
      ensures expired <==> Expired(ts, now)
      ensures Nanos(delta) == Nanos(ts) - Nanos(now) && 0 <= delta.nsec <= NANO
      ensures !expired ==> delta.sec >= 0
    {
      var d, carried, negative := Subtract(ts, now);
      delta := d;
      if negative {
        return true;
      }
      ts := Timespec(carried.sec + delta.sec, ts.nsec);
      ts := Timespec(ts.sec, carried.nsec + delta.nsec);
      return false;
    }

    method IsExpired(now: Timespec) returns (expired: bool)
      modifies this
      ensures ts == old(ts)
      ensures expired <==> Expired(ts, now) || (ts.sec <= 0 && ts.nsec <= 0)
      ensures Nanos(delta) == Nanos(ts) - Nanos(now) && 0 <= delta.nsec <= NANO
    {
      var e := Update(now);
      expired := e || (ts.sec <= 0 && ts.nsec <= 0);
    }
  }

  /** An expired deadline stays expired while the clock does not go back. */
  lemma ExpiryIsPermanent(ts: Timespec, now: Timespec, later: Timespec)
    requires ClockReading(now) && ClockReading(later) && Nanos(now) <= Nanos(later)
    requires Expired(ts, now)
    ensures Expired(ts, later)
  {
    if Nanos(now) == Nanos(later) {
      NormalisedUnique(now, later);
    }
  }

  lemma NormalisedUnique(a: Timespec, b: Timespec)
    requires 0 <= a.nsec < NANO && 0 <= b.nsec < NANO && Nanos(a) == Nanos(b)
    ensures a == b
  {
    assert Nanos(a) / NANO == a.sec;
    assert Nanos(b) / NANO == b.sec;
  }

  /** The tie that counts as expired does occur: version 3 arms 100 centiseconds, and the clock comes to it exactly. */
  lemma TieReportedAsExpired()
    ensures var deadline, now := Deadline(Timespec(5, 7), 3, 100), Timespec(6, 7);
            ClockReading(now) && Nanos(deadline) == Nanos(now) && Expired(deadline, now)
  {
  }
}
