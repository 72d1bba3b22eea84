/**
 The tick clock of main/pcan_time.c: 64-bit ticks of 42667 ns derived from a
 microsecond clock, the 16-bit value put on the wire, and the host's conversion
 back to microseconds.
 */
module PcanTime {
  import opened Words

  const TICK_NS: int := 42667
  const US_PER_TICK: int := 44739243
  const DIV_SHIFT: int := 0x10_0000
  /** The largest distance of two readings that one low byte can always bridge. */
  const MAX_GAP_US: int := 10880

  type u64 = x: int | 0 <= x < 0x1_0000_0000_0000_0000

  function Ticks64(us: u64): (t: u64)
    ensures us * 1000 < TWO_64 ==> t * TICK_NS <= us * 1000 < (t + 1) * TICK_NS
  {
    (us * 1000) % TWO_64 / TICK_NS
  }

  function Now16(us: u64): u16 { Ticks64(us) % TWO_16 }

  function HostUs(t: nat): nat { t * US_PER_TICK / DIV_SHIFT }

  function Gap16(from: u16, to: u16): u16 { (to - from) % TWO_16 }

  /** The epoch captured at start-up; readings are microseconds of the system timer. */
  class Clock {
    var epoch: u64

    constructor (timer: u64)
      ensures epoch == timer
    {
      epoch := timer;
    }

    method Init(timer: u64)
      modifies this
      ensures epoch == timer
    {
      epoch := timer;
    }

    /** A clock that appears to run backwards reads zero. */
    function Elapsed(timer: u64): u64
      reads this
    {
      if timer < epoch then 0 else timer - epoch
    }

    function NowTicks16(timer: u64): u16
      reads this
    {
      Now16(Elapsed(timer))
    }

    /** Two readings after the epoch are as far apart as the timer; before it they never run ahead of it. */
    lemma ElapsedAdvances(t1: u64, t2: u64)
      requires t1 <= t2
      ensures 0 <= Elapsed(t2) - Elapsed(t1) <= t2 - t1
      ensures epoch <= t1 ==> Elapsed(t2) - Elapsed(t1) == t2 - t1
    {}

    /** Stamps taken at most 10880 us apart by the timer are at most 255 ticks apart on the wire. */
    lemma StampsStayClose(t1: u64, t2: u64)
      requires t1 <= t2 <= t1 + MAX_GAP_US && Elapsed(t2) * 1000 < TWO_64
      ensures Gap16(NowTicks16(t1), NowTicks16(t2)) <= 255
    {
      ElapsedAdvances(t1, t2);
      WireDifference(Elapsed(t1), Elapsed(t2));
      TicksBetween(Elapsed(t1), Elapsed(t2));
      hide Now16, Gap16, Ticks64;
      assert Gap16(NowTicks16(t1), NowTicks16(t2)) == (Ticks64(Elapsed(t2)) - Ticks64(Elapsed(t1))) % TWO_16;
    }
  }

  /** The host's reconstruction never runs ahead and lags by 44 us plus one in 3000 ticks. */
  predicate Faithful(us: u64) {
    var t := Ticks64(us);
    0 <= us - HostUs(t) <= 44 + t / 3000
  }

  /** Faithful exactly as long as the nanosecond product fits 64 bits. */
  lemma FaithfulIff(us: u64)
    ensures Faithful(us) <==> us * 1000 < TWO_64
  {
    var t := Ticks64(us);
    var a := HostUs(t);
    assert a * DIV_SHIFT <= t * US_PER_TICK < (a + 1) * DIV_SHIFT;
    if us * 1000 >= TWO_64 {
      assert t * TICK_NS <= (us * 1000) % TWO_64 < TWO_64;
      assert (us * 1000) % TWO_64 <= us * 1000 - TWO_64;
    }
  }

  /** Differences of the wire value are the true tick differences, modulo 2^16. */
  lemma WireDifference(us1: u64, us2: u64)
    ensures Gap16(Now16(us1), Now16(us2)) == (Ticks64(us2) - Ticks64(us1)) % TWO_16
  {
    hide Ticks64;
    Difference16(Ticks64(us1), Ticks64(us2));
  }

  lemma TicksBetween(us1: u64, us2: u64)
    requires us1 <= us2 && us2 * 1000 < TWO_64 && us2 - us1 <= MAX_GAP_US
    ensures 0 <= Ticks64(us2) - Ticks64(us1) <= 255
  {}

  /** Readings at most `gap` us apart are at most 255 ticks apart on the wire. */
  ghost predicate GapFitsByte(gap: nat) {
    forall us1: u64, us2: u64 :: us1 <= us2 <= us1 + gap && us2 * 1000 < TWO_64 ==> Gap16(Now16(us1), Now16(us2)) <= 255
  }

  lemma GapFitsByteIff(gap: nat)
    ensures GapFitsByte(gap) <==> gap <= MAX_GAP_US
  {
    if gap <= MAX_GAP_US {
      forall us1: u64, us2: u64 | us1 <= us2 <= us1 + gap && us2 * 1000 < TWO_64
        ensures Gap16(Now16(us1), Now16(us2)) <= 255
      {
        WireDifference(us1, us2);
        TicksBetween(us1, us2);
      }
    } else {
      var us1: u64, us2: u64 := 42, 42 + MAX_GAP_US + 1;
      assert Now16(us1) == 0 && Now16(us2) == 256;
    }
  }
}
