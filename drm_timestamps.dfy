// Page-flip timestamps: convertTimestamp and the timestamp computed in
// pageFlipHandler (drm_gpu.cpp). Clock readings (clock_gettime and
// steady_clock::now) are parameters.
module DrmTimestamps {
  import opened DrmObjects

  const NANOS_PER_SECOND: int := 1_000_000_000
  const NANOS_PER_MICRO: int := 1000
  const U32: int := 0x1_0000_0000

  /** A POSIX timespec. */
  datatype Timespec = Timespec(sec: int, nsec: int)

  /** std::chrono::seconds(tv_sec) + std::chrono::nanoseconds(tv_nsec). */
  function Nanos(t: Timespec): int
  {
    t.sec * NANOS_PER_SECOND + t.nsec
  }

  /**
   * convertTimestamp(sourceClock, targetClock, ts): the identity when both
   * clocks are the same; otherwise ts moved to the target clock so that it
   * lies as far in the past of targetNow as it lies in the past of sourceNow.
   */
  function ConvertTimestamp(source: Clock, target: Clock, sourceNow: Timespec, targetNow: Timespec, ts: Timespec): (r: int)
    ensures source == target ==> r == ts.sec * NANOS_PER_SECOND + ts.nsec
    ensures source != target ==> Nanos(targetNow) - r == Nanos(sourceNow) - Nanos(ts)
  {
    if source == target then Nanos(ts)
    else
      var delta := Nanos(sourceNow) - Nanos(ts);
      Nanos(targetNow) - delta
  }

  /** Conversion keeps the order and the distance between two timestamps taken against the same clock readings. */
  lemma ConvertKeepsIntervals(source: Clock, target: Clock, sourceNow: Timespec, targetNow: Timespec, a: Timespec, b: Timespec)
    ensures ConvertTimestamp(source, target, sourceNow, targetNow, b) - ConvertTimestamp(source, target, sourceNow, targetNow, a)
            == Nanos(b) - Nanos(a)
  {
  }

  /**
   * The timespec pageFlipHandler builds from the kernel's unsigned
   * seconds and microseconds: usec * 1000 is an unsigned 32-bit
   * multiplication, so it wraps modulo 2^32.
   */
  function FlipTimespec(sec: nat, usec: nat): (t: Timespec)
    requires sec < U32 && usec < U32
    ensures t.sec == sec && 0 <= t.nsec < U32
    ensures usec * NANOS_PER_MICRO < U32 ==> t.nsec == usec * NANOS_PER_MICRO
  {
    Timespec(sec, (usec * NANOS_PER_MICRO) % U32)
  }

  /**
   * The timestamp passed to notifyFrameCompleted: the flip time converted
   * from the presentation clock to CLOCK_MONOTONIC, or steady-clock now
   * when the conversion yields zero.
   */
  function FlipTimestamp(presentationClock: Clock, sourceNow: Timespec, monotonicNow: Timespec, steadyNow: int, sec: nat, usec: nat): (r: int)
    requires sec < U32 && usec < U32
    ensures r == 0 ==> steadyNow == 0
  {
    var c := ConvertTimestamp(presentationClock, Monotonic, sourceNow, monotonicNow, FlipTimespec(sec, usec));
    if c == 0 then steadyNow else c
  }

  /**
   * With a monotonic presentation clock and a valid microsecond count the
   * flip timestamp is the kernel's time in nanoseconds, except for the
   * all-zero time, which is replaced by steady-clock now.
   */
  lemma MonotonicFlipIsExact(sourceNow: Timespec, monotonicNow: Timespec, steadyNow: int, sec: nat, usec: nat)
    requires sec < U32 && usec < 1_000_000
    ensures var r := FlipTimestamp(Monotonic, sourceNow, monotonicNow, steadyNow, sec, usec);
            && ((sec, usec) != (0, 0) ==> r == sec * NANOS_PER_SECOND + usec * NANOS_PER_MICRO)
            && ((sec, usec) == (0, 0) ==> r == steadyNow)
  {
    var t := FlipTimespec(sec, usec);
    assert t.nsec == usec * NANOS_PER_MICRO;
  }

  /** A flip on the realtime clock keeps its age when moved to the monotonic clock. */
  lemma RealtimeFlipKeepsAge(sourceNow: Timespec, monotonicNow: Timespec, steadyNow: int, sec: nat, usec: nat)
    requires sec < U32 && usec < 1_000_000
    ensures var r := FlipTimestamp(Realtime, sourceNow, monotonicNow, steadyNow, sec, usec);
            r == steadyNow || Nanos(monotonicNow) - r == Nanos(sourceNow) - (sec * NANOS_PER_SECOND + usec * NANOS_PER_MICRO)
  {
    var t := FlipTimespec(sec, usec);
    assert t.nsec == usec * NANOS_PER_MICRO;
  }
}
