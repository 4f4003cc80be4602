/** The time arithmetic of the timers: the deadline start() computes and the rank that
    orders two deadlines. Machine integers are written out where they matter. */
module TimerTime {
  const NSEC := 1_000_000_000
  const TWO31 := 0x8000_0000
  const TWO32 := 0x1_0000_0000

  /** A struct timespec. */
  datatype Timespec = Timespec(sec: int, nsec: int) {
    /** Seconds are any unsigned 32-bit value, nanoseconds are below one second. */
    predicate Normal() {
      0 <= sec < TWO32 && 0 <= nsec < NSEC
    }

    /** The time in nanoseconds. */
    function Total(): int {
      sec * NSEC + nsec
    }
  }

  /** Conversion of a wider integer to a 32-bit int. */
  function ToInt32(x: int): (r: int)
    ensures -TWO31 <= r < TWO31 && (x - r) % TWO32 == 0
    ensures -TWO31 <= x < TWO31 ==> r == x
  {
    (x + TWO31) % TWO32 - TWO31
  }

  /** LocTimerDelegate::ranks: the later of two deadlines ranks lower. */
  function Ranks(self: Timespec, other: Timespec): int {
    var rank := ToInt32(other.sec - self.sec);
    if rank == 0 then ToInt32(other.nsec - self.nsec) else rank
  }

  /** Positive exactly when self is earlier, zero exactly when both are equal. */
  predicate RanksRightly(self: Timespec, other: Timespec) {
    && (Ranks(self, other) > 0 <==> self.Total() < other.Total())
    && (Ranks(self, other) == 0 <==> self.Total() == other.Total())
  }

  /** The rank is right exactly when the difference in seconds fits an int. */
  lemma RanksExact(a: Timespec, b: Timespec)
    requires a.Normal() && b.Normal()
    ensures RanksRightly(a, b) <==> -TWO31 <= b.sec - a.sec < TWO31
  {
    var d := b.sec - a.sec;
    assert b.Total() - a.Total() == d * NSEC + (b.nsec - a.nsec);
    if d >= TWO31 {
      assert ToInt32(d) == d - TWO32;
    } else if d < -TWO31 {
      assert ToInt32(d) == d + TWO32;
    }
  }

  /** Adding a timeout in milliseconds to the current time, as start() does it, with a
      nanosecond field of 32 bits. What is stored in the field before it is normalised
      fits, so nothing is lost. */
  method FutureTime(now: Timespec, timeOutInMs: nat) returns (future: Timespec, ghost peak: int)
    requires 0 <= now.nsec < NSEC
    ensures 0 <= future.nsec < NSEC
    ensures future.Total() == now.Total() + timeOutInMs * 1_000_000
    ensures peak == now.nsec + (timeOutInMs % 1000) * 1_000_000 && future.nsec <= peak < TWO31
  {
    var sec := now.sec + timeOutInMs / 1000;
    var nsec := ToInt32(now.nsec + (timeOutInMs % 1000) * 1_000_000);
    peak := now.nsec + (timeOutInMs % 1000) * 1_000_000;
    if nsec >= NSEC {
      sec := sec + nsec / NSEC;
      nsec := nsec % NSEC;
    }
    future := Timespec(sec, nsec);
    assert timeOutInMs == (timeOutInMs / 1000) * 1000 + timeOutInMs % 1000;
  }

  /** A timeout is an unsigned number of milliseconds of 32 bits, so the deadlines of any
      two timers that were started within the first 2^31 - 4294968 seconds rank rightly. */
  lemma DeadlinesRankRightly(a: Timespec, b: Timespec, now1: Timespec, now2: Timespec, ms1: nat, ms2: nat)
    requires a.Normal() && b.Normal() && now1.Normal() && now2.Normal()
    requires now1.sec < TWO31 - 4_294_968 && now2.sec < TWO31 - 4_294_968 && ms1 < TWO32 && ms2 < TWO32
    requires a.Total() == now1.Total() + ms1 * 1_000_000 && b.Total() == now2.Total() + ms2 * 1_000_000
    ensures RanksRightly(a, b)
  {
    RanksExact(a, b);
  }
}
