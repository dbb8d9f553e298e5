/**
 The filter on GNSS pulses: after the first pulse, and after an outage, a number of pulses is
 ignored; the others are converted to boot time.  Time values are seconds and nanoseconds.
 */
module Pps {
  import opened Wrappers

  const BILLION_NSEC := 1_000_000_000
  const MILLI_NSEC := 1_000_000
  const MAX_REALTIME_OFFSET_DELTA_DIFFERENCE := 10
  const MAX_PPS_KERNEL_TO_USERSPACE_LATENCY := 100
  const EINTR := 4

  datatype Time = Time(sec: int, nsec: int)

  const ZERO := Time(0, 0)

  function Value(t: Time): int { t.sec * BILLION_NSEC + t.nsec }

  predicate Normal(t: Time) { 0 <= t.nsec < BILLION_NSEC }

  function Difference(time1: Time, time2: Time): Time {
    if time2.nsec < time1.nsec
    then Time(time2.sec - 1 - time1.sec, BILLION_NSEC + time2.nsec - time1.nsec)
    else Time(time2.sec - time1.sec, time2.nsec - time1.nsec)
  }

  function Sum(time1: Time, time2: Time): Time {
    if time2.nsec + time1.nsec >= BILLION_NSEC
    then Time(time2.sec + time1.sec + 1, time2.nsec + time1.nsec - BILLION_NSEC)
    else Time(time2.sec + time1.sec, time2.nsec + time1.nsec)
  }

  lemma DifferenceIs(time1: Time, time2: Time)
    requires Normal(time1) && Normal(time2)
    ensures Normal(Difference(time1, time2)) && Value(Difference(time1, time2)) == Value(time2) - Value(time1)
  {
  }

  lemma SumIs(time1: Time, time2: Time)
    requires Normal(time1) && Normal(time2)
    ensures Normal(Sum(time1, time2)) && Value(Sum(time1, time2)) == Value(time1) + Value(time2)
  {
  }

  lemma NormalIsUnique(a: Time, b: Time)
    requires Normal(a) && Normal(b) && Value(a) == Value(b)
    ensures a == b
  {
  }

  /** Adding and taking differences undo each other. */
  lemma SumUndoesDifference(time1: Time, time2: Time)
    requires Normal(time1) && Normal(time2)
    ensures Sum(time1, Difference(time1, time2)) == time2
    ensures Difference(time1, Sum(time1, time2)) == time2
  {
    DifferenceIs(time1, time2);
    SumIs(time1, Difference(time1, time2));
    NormalIsUnique(Sum(time1, Difference(time1, time2)), time2);
    SumIs(time1, time2);
    DifferenceIs(time1, Sum(time1, time2));
    NormalIsUnique(Difference(time1, Sum(time1, time2)), time2);
  }

  // ----- conversion to boot time ----------------------------------------------------

  datatype Clock = Boottime | Realtime | Unknown

  function Abs(x: int): nat { if x < 0 then -x else x }

  function ReportedTimeType(userBootTs: Time, userRealTs: Time, kernelTs: Time): Clock {
    if Abs(Value(userBootTs) - Value(kernelTs)) <= MAX_PPS_KERNEL_TO_USERSPACE_LATENCY * MILLI_NSEC then Boottime
    else if Abs(Value(userRealTs) - Value(kernelTs)) <= MAX_PPS_KERNEL_TO_USERSPACE_LATENCY * MILLI_NSEC then Realtime
    else Unknown
  }

  predicate IsTimeOffsetOk(offsetTime: Time) {
    Abs(Value(offsetTime)) <= MAX_REALTIME_OFFSET_DELTA_DIFFERENCE * MILLI_NSEC
  }

  /** The clocks as user space reads them next to a pulse, unless one of them cannot be read. */
  datatype Reading = ClockFailed | Reading(boot: Time, real_: Time)

  /** What is published: the pulse on the boot clock, and when user space saw it. */
  datatype Sync = Sync(timeOffset: Time, kernelTs: Time, userTs: Time)

  function Converted(s: Sync, pulse: Time, r: Reading): Sync {
    if r.ClockFailed? then s else
      match ReportedTimeType(r.boot, r.real_, pulse)
      case Boottime => s.(kernelTs := pulse, userTs := r.boot)
      case Unknown => s
      case Realtime =>
        var delta := Difference(r.real_, r.boot);
        if s.timeOffset == ZERO || IsTimeOffsetOk(Difference(s.timeOffset, delta))
        then Sync(delta, Sum(pulse, delta), r.boot)
        else s.(timeOffset := delta)
  }

  /** How far the boot clock is ahead of the real-time clock, in nanoseconds. */
  function Offset(r: Reading): int
    requires r.Reading?
  {
    Value(r.boot) - Value(r.real_)
  }

  /** A boot-time stamp is always published, a real-time stamp unless the offset jumped. */
  predicate Publishes(s: Sync, pulse: Time, r: Reading) {
    && r.Reading?
    && match ReportedTimeType(r.boot, r.real_, pulse)
       case Boottime => true
       case Unknown => false
       case Realtime => s.timeOffset == ZERO || Near(Offset(r), Value(s.timeOffset))
  }

  predicate Near(a: int, b: int) {
    Abs(a - b) <= MAX_REALTIME_OFFSET_DELTA_DIFFERENCE * MILLI_NSEC
  }

  // ----- which pulses are ignored -----------------------------------------------------

  datatype Filter = Filter(isFirstPulseReceived: bool, skipPulseCnt: nat, prevSec: int)

  /** The count in force when a pulse arrives: renewed by the first pulse and after an outage. */
  function CountAt(f: Filter, count: int, outage: int, sec: int): nat {
    if !f.isFirstPulseReceived && count > 0 then count
    else if f.isFirstPulseReceived && count > 0 && sec - f.prevSec > outage then count
    else f.skipPulseCnt
  }

  function Filtered(f: Filter, count: int, outage: int, sec: int): Filter {
    var skip := CountAt(f, count, outage, sec);
    Filter(f.isFirstPulseReceived || count > 0, if skip > 0 then skip - 1 else 0, sec)
  }

  // ----- one fetch ------------------------------------------------------------------------

  /** What the driver returns, the time it filled in, and the clocks read next to it. */
  datatype Fetch = Fetch(fetched: int, pulse: Time, reading: Reading)

  /** A fetch that counts: also one that was interrupted. */
  predicate Succeeds(x: Fetch) {
    x.fetched >= 0 || x.fetched == -EINTR
  }

  datatype Reader = Reader(filter: Filter, sync: Sync)

  const START := Reader(Filter(false, 0, 0), Sync(ZERO, ZERO, ZERO))

  function AfterRead(r: Reader, count: int, outage: int, x: Fetch): Reader {
    if !Succeeds(x) then r
    else Reader(Filtered(r.filter, count, outage, x.pulse.sec),
                if CountAt(r.filter, count, outage, x.pulse.sec) > 0 then r.sync
                else Converted(r.sync, x.pulse, x.reading))
  }

  class PpsReader {
    const skipPPSPulseCnt: int
    const gnssOutageInSec: int
    var isFirstPulseReceived: bool
    var skipPulseCnt: nat
    var prevDrsyncKernelTs: Time
    var timeOffset: Time
    var drsyncKernelTs: Time
    var drsyncUserTs: Time

    ghost function Filtering(): Filter
      reads this
    {
      Filter(isFirstPulseReceived, skipPulseCnt, prevDrsyncKernelTs.sec)
    }

    ghost function Published(): Sync
      reads this
    {
      Sync(timeOffset, drsyncKernelTs, drsyncUserTs)
    }

    ghost function View(): Reader
      reads this
    {
      Reader(Filtering(), Published())
    }

    constructor (count: int, outage: int)
      ensures skipPPSPulseCnt == count && gnssOutageInSec == outage
      ensures View() == START
    {
      skipPPSPulseCnt, gnssOutageInSec := count, outage;
      isFirstPulseReceived, skipPulseCnt := false, 0;
      prevDrsyncKernelTs, timeOffset, drsyncKernelTs, drsyncUserTs := ZERO, ZERO, ZERO, ZERO;
    }

    method ComputeRealToBootTime(pulse: Time, r: Reading) returns (retVal: int)
      modifies this
      ensures Published() == Converted(old(Published()), pulse, r)
      ensures retVal == if Publishes(old(Published()), pulse, r) then 0 else -1
      ensures Filtering() == old(Filtering())
    {
      retVal := 0;
      if r.ClockFailed? {
        return -1;
      }
      var ppsTimeType := ReportedTimeType(r.boot, r.real_, pulse);
      if ppsTimeType == Boottime {
        drsyncKernelTs := pulse;
        drsyncUserTs := r.boot;
      } else if ppsTimeType == Realtime {
        var deltaRealToBootTime := Difference(r.real_, r.boot);
        var deltaOffsetTime := Difference(timeOffset, deltaRealToBootTime);
        if (0 == timeOffset.sec && 0 == timeOffset.nsec) || IsTimeOffsetOk(deltaOffsetTime) {
          drsyncUserTs := r.boot;
          drsyncKernelTs := Sum(pulse, deltaRealToBootTime);
        } else {
          retVal := -1;
        }
        timeOffset := deltaRealToBootTime;
      } else {
        retVal := -1;
      }
    }

    method ReadPps(fetched: int, pulse: Time, r: Reading) returns (ret: int)
      modifies this
      ensures ret == if Succeeds(Fetch(fetched, pulse, r)) then 0 else -1
      ensures View() == AfterRead(old(View()), skipPPSPulseCnt, gnssOutageInSec, Fetch(fetched, pulse, r))
    {
      if fetched < 0 && fetched != -EINTR {
        return -1;
      }
      if !isFirstPulseReceived && skipPPSPulseCnt > 0 {
        skipPulseCnt := skipPPSPulseCnt;
        isFirstPulseReceived := true;
      } else if isFirstPulseReceived && skipPPSPulseCnt > 0
                && pulse.sec - prevDrsyncKernelTs.sec > gnssOutageInSec {
        skipPulseCnt := skipPPSPulseCnt;
      }
      prevDrsyncKernelTs := pulse;
      if skipPulseCnt > 0 {
        skipPulseCnt := skipPulseCnt - 1;
        return 0;
      }
      var converted := ComputeRealToBootTime(pulse, r);
      return 0;
    }
  }

  // ----- the skip window ----------------------------------------------------------------

  /** The filter after the first `n` pulses of a stream of arrival seconds. */
  function After(count: int, outage: int, pulses: seq<int>, n: nat): Filter
    requires n <= |pulses|
  {
    if n == 0 then Filter(false, 0, 0)
    else Filtered(After(count, outage, pulses, n - 1), count, outage, pulses[n - 1])
  }

  predicate Forwarded(count: int, outage: int, pulses: seq<int>, i: nat)
    requires i < |pulses|
  {
    CountAt(After(count, outage, pulses, i), count, outage, pulses[i]) == 0
  }

  /** A pulse that starts a window: the first one, or one after a gap longer than the outage. */
  predicate Starts(outage: int, pulses: seq<int>, j: nat)
    requires j < |pulses|
  {
    j == 0 || pulses[j] - pulses[j - 1] > outage
  }

  lemma {:induction false} Remaining(count: int, outage: int, pulses: seq<int>, n: nat, d: nat)
    requires n <= |pulses| && count > 0
    ensures var f := After(count, outage, pulses, n);
            && (f.isFirstPulseReceived <==> n > 0)
            && (n > 0 ==> f.prevSec == pulses[n - 1])
            && (f.skipPulseCnt > d <==> exists j :: 0 <= j < n && n - count + d < j && Starts(outage, pulses, j))
    decreases n
  {
    if n > 0 {
      Remaining(count, outage, pulses, n - 1, d + 1);
      Remaining(count, outage, pulses, n - 1, 0);
      if Starts(outage, pulses, n - 1) {
      }
    }
  }

  /** A pulse is forwarded exactly if none of the last `count` pulses, itself included, starts a window. */
  lemma ForwardedIff(count: int, outage: int, pulses: seq<int>, i: nat)
    requires i < |pulses| && count > 0
    ensures Forwarded(count, outage, pulses, i) <==>
            forall j :: 0 <= j <= i && i - count < j ==> !Starts(outage, pulses, j)
  {
    Remaining(count, outage, pulses, i, 0);
    if Starts(outage, pulses, i) {
    }
  }

  lemma {:induction false} NoWindow(count: int, outage: int, pulses: seq<int>, n: nat)
    requires n <= |pulses| && count <= 0
    ensures var f := After(count, outage, pulses, n); !f.isFirstPulseReceived && f.skipPulseCnt == 0
    decreases n
  {
    if n > 0 { NoWindow(count, outage, pulses, n - 1); }
  }

  /** Without a positive count every pulse is forwarded. */
  lemma AllForwarded(count: int, outage: int, pulses: seq<int>, i: nat)
    requires i < |pulses| && count <= 0
    ensures Forwarded(count, outage, pulses, i)
  {
    NoWindow(count, outage, pulses, i);
  }

  // ----- what is published ----------------------------------------------------------------

  predicate WellFormed(x: Fetch) {
    Normal(x.pulse) && (x.reading.Reading? ==> Normal(x.reading.boot) && Normal(x.reading.real_))
  }

  /** Two times at most 100 ms, or 100 million nanoseconds, apart. */
  predicate Close(a: Time, b: Time) {
    -100_000_000 <= Value(a) - Value(b) <= 100_000_000
  }

  /** The pulse was stamped close to the boot reading. */
  predicate ByBoot(x: Fetch) {
    x.reading.Reading? && Close(x.reading.boot, x.pulse)
  }

  /** It was not, but it was stamped close to the real-time reading. */
  predicate ByReal(x: Fetch) {
    x.reading.Reading? && !Close(x.reading.boot, x.pulse) && Close(x.reading.real_, x.pulse)
  }

  /**
   A published pulse is on the boot clock: it is as far from the boot reading as the kernel's
   time stamp is from the reading of the clock that stamped it, and not more than 100 ms.  Any
   other pulse leaves what was published alone.
   */
  lemma PublishedOnBootClock(s: Sync, x: Fetch)
    requires WellFormed(x) && Normal(s.timeOffset)
    ensures var next := Converted(s, x.pulse, x.reading);
            if Publishes(s, x.pulse, x.reading) then
              var boot, stamping := x.reading.boot,
                                    if ByBoot(x) then x.reading.boot else x.reading.real_;
              && next.userTs == boot && Normal(next.kernelTs)
              && Value(boot) - Value(next.kernelTs) == Value(stamping) - Value(x.pulse)
              && Abs(Value(boot) - Value(next.kernelTs)) <= MAX_PPS_KERNEL_TO_USERSPACE_LATENCY * MILLI_NSEC
            else next.kernelTs == s.kernelTs && next.userTs == s.userTs
  {
    if x.reading.Reading? {
      var delta := Difference(x.reading.real_, x.reading.boot);
      DifferenceIs(x.reading.real_, x.reading.boot);
      DifferenceIs(s.timeOffset, delta);
      SumIs(x.pulse, delta);
    }
  }

  // ----- over whole streams of fetches ------------------------------------------------------

  function ReaderAfter(count: int, outage: int, xs: seq<Fetch>): Reader {
    if xs == [] then START
    else AfterRead(ReaderAfter(count, outage, xs[..|xs| - 1]), count, outage, xs[|xs| - 1])
  }

  /** The fetches that succeeded. */
  function Good(xs: seq<Fetch>): (good: seq<Fetch>)
    ensures forall k :: 0 <= k < |good| ==> Succeeds(good[k]) && good[k] in xs
  {
    if xs == [] then [] else
      Good(xs[..|xs| - 1]) + if Succeeds(xs[|xs| - 1]) then [xs[|xs| - 1]] else []
  }

  lemma {:induction false} FailuresDoNotMatter(count: int, outage: int, xs: seq<Fetch>)
    ensures ReaderAfter(count, outage, xs) == ReaderAfter(count, outage, Good(xs))
  {
    if xs != [] {
      var before, x := xs[..|xs| - 1], xs[|xs| - 1];
      FailuresDoNotMatter(count, outage, before);
      if Succeeds(x) {
        assert Good(xs) == Good(before) + [x] && (Good(before) + [x])[..|Good(before)|] == Good(before);
      } else {
        assert Good(xs) == Good(before) + [] == Good(before);
      }
    }
  }

  function Seconds(good: seq<Fetch>): (pulses: seq<int>)
    ensures |pulses| == |good| && forall k :: 0 <= k < |good| ==> pulses[k] == good[k].pulse.sec
  {
    if good == [] then [] else Seconds(good[..|good| - 1]) + [good[|good| - 1].pulse.sec]
  }

  lemma {:induction false} FilterIs(count: int, outage: int, good: seq<Fetch>, n: nat)
    requires n <= |good| && forall k :: 0 <= k < |good| ==> Succeeds(good[k])
    ensures ReaderAfter(count, outage, good[..n]).filter == After(count, outage, Seconds(good), n)
    decreases n
  {
    if n > 0 {
      FilterIs(count, outage, good, n - 1);
      assert good[..n][..n - 1] == good[..n - 1];
    }
  }

  /** The last of the first `n` fetches that was forwarded and stamped by the real-time clock. */
  function LastStamp(count: int, outage: int, good: seq<Fetch>, n: nat): (last: Option<nat>)
    requires n <= |good|
    ensures last.Some? ==> last.value < n && Stamps(count, outage, good, last.value)
    ensures forall k :: (if last.Some? then last.value + 1 else 0) <= k < n ==> !Stamps(count, outage, good, k)
  {
    if n == 0 then None
    else if Stamps(count, outage, good, n - 1) then Some(n - 1)
    else LastStamp(count, outage, good, n - 1)
  }

  predicate Stamps(count: int, outage: int, good: seq<Fetch>, k: nat)
    requires k < |good|
  {
    Forwarded(count, outage, Seconds(good), k) && ByReal(good[k])
  }

  lemma TypeIs(x: Fetch)
    requires x.reading.Reading?
    ensures var clock := ReportedTimeType(x.reading.boot, x.reading.real_, x.pulse);
            && (clock == Boottime <==> ByBoot(x)) && (clock == Realtime <==> ByReal(x))
  {
  }

  lemma OffsetAfter(r: Reader, count: int, outage: int, x: Fetch)
    requires Succeeds(x) && WellFormed(x) && Normal(r.sync.timeOffset)
    ensures var next := AfterRead(r, count, outage, x).sync.timeOffset;
            && Normal(next)
            && if CountAt(r.filter, count, outage, x.pulse.sec) == 0 && ByReal(x)
               then Value(next) == Offset(x.reading) else next == r.sync.timeOffset
  {
    if x.reading.Reading? {
      DifferenceIs(x.reading.real_, x.reading.boot);
      TypeIs(x);
    }
    hide Difference, Sum, CountAt, Value, Normal, ReportedTimeType, Close;
  }

  /** The remembered offset is that of the last such fetch, published or not. */
  lemma {:induction false} OffsetIsLast(count: int, outage: int, good: seq<Fetch>, n: nat)
    requires n <= |good| && forall k :: 0 <= k < |good| ==> Succeeds(good[k]) && WellFormed(good[k])
    ensures var s, last := ReaderAfter(count, outage, good[..n]).sync, LastStamp(count, outage, good, n);
            && Normal(s.timeOffset)
            && (last.None? ==> s.timeOffset == ZERO)
            && (last.Some? ==> Value(s.timeOffset) == Offset(good[last.value].reading))
    decreases n
  {
    if n > 0 {
      OffsetIsLast(count, outage, good, n - 1);
      FilterIs(count, outage, good, n - 1);
      assert good[..n][..n - 1] == good[..n - 1];
      var before := ReaderAfter(count, outage, good[..n - 1]);
      OffsetAfter(before, count, outage, good[n - 1]);
      assert ReaderAfter(count, outage, good[..n]) == AfterRead(before, count, outage, good[n - 1]);
      hide AfterRead, ReaderAfter, Value, Normal, After, Seconds, ByReal, CountAt;
    }
  }

  /** The fetch succeeds, its pulse is not ignored, and it is published. */
  predicate PublishesNext(r: Reader, count: int, outage: int, x: Fetch) {
    && Succeeds(x) && CountAt(r.filter, count, outage, x.pulse.sec) == 0
    && Publishes(r.sync, x.pulse, x.reading)
  }

  /** None of the last `count` pulses, pulse `i` included, starts a window. */
  predicate OutsideWindows(count: int, outage: int, pulses: seq<int>, i: nat)
    requires i < |pulses|
  {
    forall j :: 0 <= j <= i && i - count < j ==> !Starts(outage, pulses, j)
  }

  /** Stamped by the boot clock, or by a real-time clock that has not jumped since the last forwarded stamp. */
  predicate Stamped(count: int, outage: int, good: seq<Fetch>, i: nat)
    requires i < |good|
  {
    var last := LastStamp(count, outage, good, i);
    || ByBoot(good[i])
    || (ByReal(good[i])
        && (last.Some? ==>
              var before := Offset(good[last.value].reading);
              before == 0 || -10_000_000 <= Offset(good[i].reading) - before <= 10_000_000))
  }

  lemma StampedIff(count: int, outage: int, good: seq<Fetch>, i: nat)
    requires i < |good| && forall k :: 0 <= k < |good| ==> Succeeds(good[k]) && WellFormed(good[k])
    ensures Publishes(ReaderAfter(count, outage, good[..i]).sync, good[i].pulse, good[i].reading)
            <==> Stamped(count, outage, good, i)
  {
    OffsetIsLast(count, outage, good, i);
    if good[i].reading.Reading? { TypeIs(good[i]); }
    var offset := ReaderAfter(count, outage, good[..i]).sync.timeOffset;
    if Value(offset) == 0 {
      NormalIsUnique(offset, ZERO);
    }
    hide ReaderAfter, LastStamp, ReportedTimeType, Value, Normal, Close;
  }

  /**
   Over any stream of fetches, a fetch publishes its pulse if and only if it succeeds, no window
   starts among the last `count` pulses that were fetched, and the pulse is stamped by the boot
   clock, or by the real-time clock with an offset that moved by at most 10 ms since the last
   forwarded real-time stamp, if there is one and its offset was not zero.
   */
  lemma PublishedIff(count: int, outage: int, xs: seq<Fetch>, x: Fetch)
    requires WellFormed(x) && forall k :: 0 <= k < |xs| ==> WellFormed(xs[k])
    ensures PublishesNext(ReaderAfter(count, outage, xs), count, outage, x) <==>
            var good := Good(xs) + [x];
            (x.fetched >= 0 || x.fetched == -4) && OutsideWindows(count, outage, Seconds(good), |good| - 1)
            && Stamped(count, outage, good, |good| - 1)
  {
    if Succeeds(x) {
      var good := Good(xs) + [x];
      var i := |good| - 1;
      assert good[..i] == Good(xs);
      FailuresDoNotMatter(count, outage, xs);
      FilterIs(count, outage, good, i);
      StampedIff(count, outage, good, i);
      hide After, Seconds, ReaderAfter, Stamped, Publishes, Starts, CountAt, WellFormed;
      if count > 0 {
        ForwardedIff(count, outage, Seconds(good), i);
      } else {
        AllForwarded(count, outage, Seconds(good), i);
      }
    }
  }
}
