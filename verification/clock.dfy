/** The two unwrapping device clocks: the bus-load meter's (busload.go:291-326) and the log's
    (timestamp.go:3-32), compared on the same stream of wrapped device times. */
module Clock {
  import opened Arith
  import opened Basics

  const WINDOW_US := 1_000_000

  /** The meter's clock fields; `lastHostNs` is the host time of the latest accepted frame. */
  datatype HwClock = HwClock(initialized: bool, lastRawUS: nat, lastUS: nat, firstUS: nat, lastHostNs: int)

  const HwReset := HwClock(false, 0, 0, 0, 0)

  /** The unwrapped time given to a frame, and whether the device clock was taken to have restarted. */
  datatype Stamp = Stamp(clock: HwClock, atUS: nat, restarted: bool)

  function HardwareTimestamp(c: HwClock, rawUS: nat, now: int, wrapUS: nat): Stamp {
    if !c.initialized then
      Stamp(HwClock(true, rawUS, rawUS, rawUS, now), rawUS, false)
    else if rawUS < c.lastRawUS then
      var backward := c.lastRawUS - rawUS;
      if wrapUS > 0 && backward > wrapUS / 2 && c.lastRawUS < wrapUS then
        var at := c.lastUS + (wrapUS - c.lastRawUS + rawUS);
        Stamp(c.(lastUS := at, lastRawUS := rawUS, lastHostNs := now), at, false)
      else if backward <= WINDOW_US && backward <= c.lastUS then
        Stamp(c, c.lastUS - backward, false)
      else
        Stamp(HwClock(true, rawUS, rawUS, rawUS, now), rawUS, true)
    else
      var at := c.lastUS + (rawUS - c.lastRawUS);
      Stamp(c.(lastUS := at, lastRawUS := rawUS, lastHostNs := now), at, false)
  }

  function HardwareNow(c: HwClock, now: int): nat {
    if now - c.lastHostNs > 0 then c.lastUS + (now - c.lastHostNs) / 1000 else c.lastUS
  }

  datatype LogClock = LogClock(initialized: bool, previousUS: nat, elapsedUS: nat)

  const LogReset := LogClock(false, 0, 0)

  function LogDelta(c: LogClock, timestampUS: nat, wrapUS: nat): nat {
    if timestampUS >= c.previousUS then timestampUS - c.previousUS
    else if wrapUS > c.previousUS then wrapUS - c.previousUS + timestampUS
    else 0
  }

  function LogObserve(c: LogClock, timestampUS: nat, wrapUS: nat): LogClock {
    if !c.initialized then LogClock(true, timestampUS, c.elapsedUS)
    else LogClock(true, timestampUS, c.elapsedUS + LogDelta(c, timestampUS, wrapUS))
  }

  /** timestamp.go: `relativeLogClock`. */
  class RelativeLogClock {
    var initialized: bool
    var previousUS: nat
    var elapsedUS: nat

    function Value(): LogClock reads this { LogClock(initialized, previousUS, elapsedUS) }

    constructor ()
      ensures Value() == LogReset
    {
      initialized, previousUS, elapsedUS := false, 0, 0;
    }

    method Reset()
      modifies this
      ensures Value() == LogReset
    {
      initialized, previousUS, elapsedUS := false, 0, 0;
    }

    method Observe(timestampUS: nat, wrapPeriodUS: nat) returns (elapsed: nat, delta: nat)
      modifies this
      ensures Value() == LogObserve(old(Value()), timestampUS, wrapPeriodUS)
      ensures if old(initialized) then elapsed == elapsedUS && delta == elapsedUS - old(elapsedUS)
              else elapsed == delta == 0
    {
      if !initialized {
        initialized := true;
        previousUS := timestampUS;
        return 0, 0;
      }
      delta := 0;
      if timestampUS >= previousUS {
        delta := timestampUS - previousUS;
      } else if wrapPeriodUS > previousUS {
        delta := wrapPeriodUS - previousUS + timestampUS;
      }
      previousUS := timestampUS;
      elapsedUS := elapsedUS + delta;
      return elapsedUS, delta;
    }
  }

  // ---------- a device whose counter rolls over at `wrap` ----------

  /** A frame seen at true device time `us` and host time `host`; only `us % wrap` is visible. */
  datatype Seen = Seen(us: nat, host: int)

  function HwAfter(s: seq<Seen>, wrap: nat): HwClock
    requires wrap > 0
  {
    if s == [] then HwReset
    else
      var last := s[|s| - 1];
      HardwareTimestamp(HwAfter(s[..|s| - 1], wrap), last.us % wrap, last.host, wrap).clock
  }

  function LogAfter(s: seq<Seen>, wrap: nat): LogClock
    requires wrap > 0
  {
    if s == [] then LogReset
    else LogObserve(LogAfter(s[..|s| - 1], wrap), s[|s| - 1].us % wrap, wrap)
  }

  /** True device time never decreases and never jumps a whole period. */
  predicate GapsBelow(s: seq<Seen>, wrap: nat) {
    forall i :: 0 < i < |s| ==> s[i - 1].us <= s[i].us < s[i - 1].us + wrap
  }

  predicate RollsOver(s: seq<Seen>, wrap: nat, i: nat)
    requires 0 < i < |s| && wrap > 0
  {
    s[i].us % wrap < s[i - 1].us % wrap
  }

  /** The counter rolls over and the gap is half a period (rounded up) or more. */
  predicate LongRollover(s: seq<Seen>, wrap: nat, i: nat)
    requires 0 < i < |s| && wrap > 0
  {
    RollsOver(s, wrap, i) && s[i].us - s[i - 1].us >= wrap - wrap / 2
  }

  predicate ShortRollovers(s: seq<Seen>, wrap: nat)
    requires wrap > 0
  {
    forall i :: 0 < i < |s| ==> !LongRollover(s, wrap, i)
  }

  function Elapsed(s: seq<Seen>): int
    requires s != []
  {
    s[|s| - 1].us - s[0].us
  }

  predicate HwExact(s: seq<Seen>, wrap: nat)
    requires s != [] && wrap > 0
  {
    HwAfter(s, wrap).lastUS - HwAfter(s, wrap).firstUS == Elapsed(s)
  }

  /** The two residues of a gap below one period, which rolls over when it ends in another one. */
  lemma StepResidues(a: nat, b: nat, wrap: nat)
    requires wrap > 0 && a <= b < a + wrap
    ensures b % wrap == if a % wrap + (b - a) < wrap then a % wrap + (b - a) else a % wrap + (b - a) - wrap
    ensures b % wrap < a % wrap <==> a % wrap + (b - a) >= wrap
    ensures b / wrap == a / wrap <==> a % wrap <= b % wrap
  {
    var q, r := a / wrap, a % wrap + (b - a);
    if r < wrap {
      DivModUnique(b, wrap, q, r);
    } else {
      assert (q + 1) * wrap == q * wrap + wrap;
      DivModUnique(b, wrap, q + 1, r - wrap);
    }
  }

  /** The log clock counts the true elapsed time for every gap below the period. */
  lemma {:induction false} LogClockExact(s: seq<Seen>, wrap: nat)
    requires s != [] && wrap > 0 && GapsBelow(s, wrap)
    ensures var c := LogAfter(s, wrap);
            c.initialized && c.previousUS == s[|s| - 1].us % wrap && c.elapsedUS == Elapsed(s)
  {
    var front := s[..|s| - 1];
    if front != [] {
      LogClockExact(front, wrap);
      assert GapsBelow(s, wrap) && s[|s| - 2] == front[|front| - 1];
      StepResidues(s[|s| - 2].us, s[|s| - 1].us, wrap);
    }
  }

  /** The log clock stands still for a frame that is older than the last one when no roll-over explains it,
      and goes on from there. */
  lemma LogClockStands(c: LogClock, timestampUS: nat, wrapUS: nat)
    requires c.initialized && timestampUS < c.previousUS
    ensures LogObserve(c, timestampUS, wrapUS)
            == LogClock(true, timestampUS,
                        c.elapsedUS + if wrapUS <= c.previousUS then 0 else wrapUS - (c.previousUS - timestampUS))
  {
  }

  /** Short roll-overs keep the meter's clock exact; one exact step needs exactly that. */
  lemma HwStep(c: HwClock, a: nat, b: nat, host: int, wrap: nat)
    requires wrap > 0 && a <= b < a + wrap && c.initialized && c.lastRawUS == a % wrap && c.firstUS <= c.lastUS
    ensures var next := HardwareTimestamp(c, b % wrap, host, wrap).clock;
            && (b % wrap >= a % wrap || b - a < wrap - wrap / 2
                ==> next.initialized && next.lastRawUS == b % wrap
                    && next.lastUS == c.lastUS + (b - a) && next.firstUS == c.firstUS)
            && (!(b % wrap >= a % wrap || b - a < wrap - wrap / 2)
                ==> next == c || next.lastUS == next.firstUS)
  {
    StepResidues(a, b, wrap);
  }

  /** A frame of true device time `b`, seen when the clock shows true time `a`, is placed where it belongs:
      after it, when the gap is short or needs no roll-over; before it, without moving the clock, when it is
      older by at most a second and half a period and of the same period. One from before the roll-over, heard
      after it, is taken for a later frame, a whole period late. */
  lemma PlacedWhereItBelongs(c: HwClock, a: nat, b: nat, host: int, wrap: nat)
    requires wrap > 0 && c.initialized && c.lastRawUS == a % wrap
    ensures a <= b < a + wrap && (b % wrap >= a % wrap || b - a < wrap - wrap / 2)
            ==> var s := HardwareTimestamp(c, b % wrap, host, wrap);
                s.atUS == s.clock.lastUS == c.lastUS + (b - a) && s.clock.lastHostNs == host && !s.restarted
    ensures b < a && a - b <= Min(Min(WINDOW_US, wrap / 2), c.lastUS)
            ==> var s := HardwareTimestamp(c, b % wrap, host, wrap);
                if a / wrap == b / wrap then s == Stamp(c, c.lastUS - (a - b), false)
                else s.atUS == s.clock.lastUS == c.lastUS - (a - b) + wrap && !s.restarted
  {
    if a <= b < a + wrap {
      StepResidues(a, b, wrap);
    } else if b < a && a - b <= wrap / 2 {
      StepResidues(b, a, wrap);
    }
  }

  /** A device whose counter never rolls over: an older frame keeps its place for up to a second; beyond that
      the device is taken to have restarted, and its time counts from there. */
  lemma OlderOrRestarted(c: HwClock, rawUS: nat, host: int)
    requires c.initialized && rawUS < c.lastRawUS
    ensures var s, back := HardwareTimestamp(c, rawUS, host, 0), c.lastRawUS - rawUS;
            if back <= WINDOW_US && back <= c.lastUS then s == Stamp(c, c.lastUS - back, false)
            else s == Stamp(HwClock(true, rawUS, rawUS, rawUS, host), rawUS, true)
  {
  }

  /** What the clock shows after an exact run. */
  predicate Shows(c: HwClock, s: seq<Seen>, wrap: nat)
    requires s != [] && wrap > 0
  {
    c.initialized && c.lastRawUS == s[|s| - 1].us % wrap && c.lastUS - c.firstUS == Elapsed(s)
  }

  lemma ShowsNext(c: HwClock, s: seq<Seen>, wrap: nat)
    requires |s| > 1 && wrap > 0 && Shows(c, s[..|s| - 1], wrap) && c.firstUS <= c.lastUS
    requires s[|s| - 2].us <= s[|s| - 1].us < s[|s| - 2].us + wrap && !LongRollover(s, wrap, |s| - 1)
    ensures Shows(HardwareTimestamp(c, s[|s| - 1].us % wrap, s[|s| - 1].host, wrap).clock, s, wrap)
  {
    var a, last := s[|s| - 2], s[|s| - 1];
    assert s[..|s| - 1][|s| - 2] == a;
    HwStep(c, a.us, last.us, last.host, wrap);
  }

  lemma {:induction false} HwClockExact(s: seq<Seen>, wrap: nat)
    requires s != [] && wrap > 0 && GapsBelow(s, wrap) && ShortRollovers(s, wrap)
    ensures Shows(HwAfter(s, wrap), s, wrap)
  {
    var front := s[..|s| - 1];
    if front == [] {
      assert HwAfter(front, wrap) == HwReset;
    } else {
      PrefixShort(s, wrap);
      HwClockExact(front, wrap);
      HwAfterOrdered(front, wrap);
      ShowsNext(HwAfter(front, wrap), s, wrap);
    }
  }

  lemma PrefixShort(s: seq<Seen>, wrap: nat)
    requires s != [] && wrap > 0 && GapsBelow(s, wrap) && ShortRollovers(s, wrap)
    ensures GapsBelow(s[..|s| - 1], wrap) && ShortRollovers(s[..|s| - 1], wrap)
  {
    var front := s[..|s| - 1];
    forall i | 0 < i < |front| ensures !LongRollover(front, wrap, i) {
      assert !LongRollover(s, wrap, i);
    }
  }

  /** For a stream with gaps below the period, the meter's clock shows the true elapsed time at
      every point of the run if and only if every roll-over gap is short; and then it agrees with
      the log's clock. */
  lemma UnwrapExactIff(s: seq<Seen>, wrap: nat)
    requires s != [] && wrap > 0 && GapsBelow(s, wrap)
    ensures (forall n :: 0 < n <= |s| ==> HwExact(s[..n], wrap)) <==> ShortRollovers(s, wrap)
    ensures ShortRollovers(s, wrap)
            ==> HwAfter(s, wrap).lastUS - HwAfter(s, wrap).firstUS == LogAfter(s, wrap).elapsedUS
  {
    LogClockExact(s, wrap);
    if ShortRollovers(s, wrap) {
      forall n | 0 < n <= |s| ensures HwExact(s[..n], wrap) {
        var t := s[..n];
        assert forall i :: 0 < i < |t| && LongRollover(t, wrap, i) ==> LongRollover(s, wrap, i);
        HwClockExact(t, wrap);
      }
      assert s[..|s|] == s;
    } else {
      SomeInexactPoint(s, wrap);
    }
  }

  /** A long roll-over leaves the clock standing still or restarted at zero elapsed. */
  lemma LongRolloverIsInexact(s: seq<Seen>, wrap: nat)
    requires |s| > 1 && wrap > 0 && GapsBelow(s, wrap) && ShortRollovers(s[..|s| - 1], wrap)
    requires LongRollover(s, wrap, |s| - 1)
    ensures !HwExact(s, wrap)
  {
    var front, i := s[..|s| - 1], |s| - 1;
    HwClockExact(front, wrap);
    HwAfterOrdered(front, wrap);
    GapsGrow(s, wrap);
    assert front[|front| - 1] == s[i - 1] && front[0] == s[0];
    HwStep(HwAfter(front, wrap), s[i - 1].us, s[i].us, s[i].host, wrap);
  }

  lemma {:induction false} FirstLongRollover(s: seq<Seen>, wrap: nat, i: nat) returns (first: nat)
    requires wrap > 0 && 0 < i < |s| && LongRollover(s, wrap, i)
    ensures 0 < first <= i && LongRollover(s, wrap, first)
    ensures forall j :: 0 < j < first ==> !LongRollover(s, wrap, j)
  {
    if j :| 0 < j < i && LongRollover(s, wrap, j) {
      first := FirstLongRollover(s, wrap, j);
    } else {
      first := i;
    }
  }

  /** The stream up to its first long roll-over. */
  lemma UpToFirst(s: seq<Seen>, wrap: nat, first: nat)
    requires wrap > 0 && GapsBelow(s, wrap) && 0 < first < |s| && LongRollover(s, wrap, first)
    requires forall j :: 0 < j < first ==> !LongRollover(s, wrap, j)
    ensures var t := s[..first + 1];
            && |t| == first + 1 && GapsBelow(t, wrap) && LongRollover(t, wrap, first)
            && ShortRollovers(t[..first], wrap)
  {
    var t := s[..first + 1];
    forall j | 0 < j < first ensures !LongRollover(t[..first], wrap, j) {
      assert !LongRollover(s, wrap, j);
    }
  }

  lemma SomeInexactPoint(s: seq<Seen>, wrap: nat)
    requires s != [] && wrap > 0 && GapsBelow(s, wrap) && !ShortRollovers(s, wrap)
    ensures exists n :: 0 < n <= |s| && !HwExact(s[..n], wrap)
  {
    var i :| 0 < i < |s| && LongRollover(s, wrap, i);
    var first := FirstLongRollover(s, wrap, i);
    UpToFirst(s, wrap, first);
    LongRolloverIsInexact(s[..first + 1], wrap);
  }

  lemma {:induction false} GapsGrow(s: seq<Seen>, wrap: nat)
    requires s != [] && GapsBelow(s, wrap)
    ensures s[0].us <= s[|s| - 1].us
    ensures |s| > 1 ==> s[0].us <= s[|s| - 2].us
  {
    if |s| > 1 {
      var front := s[..|s| - 1];
      GapsGrow(front, wrap);
      assert s[|s| - 2] == front[|front| - 1];
    }
  }

  /** Whatever the device reports, the latest time never falls below the first one, so the age of
      the hardware window is never negative. */
  lemma StampKeepsOrder(c: HwClock, rawUS: nat, now: int, wrapUS: nat, later: int)
    requires c.firstUS <= c.lastUS
    ensures var next := HardwareTimestamp(c, rawUS, now, wrapUS).clock;
            next.firstUS <= next.lastUS <= HardwareNow(next, later)
  {
  }

  /** The latest time never goes back unless the device has restarted, and no frame lies after it. */
  lemma StampGrows(c: HwClock, rawUS: nat, now: int, wrapUS: nat)
    ensures var stamp := HardwareTimestamp(c, rawUS, now, wrapUS);
            && stamp.atUS <= stamp.clock.lastUS
            && (c.initialized && !stamp.restarted ==> c.lastUS <= stamp.clock.lastUS)
  {
  }

  /** Unwrapped times are never 0 for a device that never reports 0. */
  predicate Positive(c: HwClock) { c.initialized ==> 1 <= c.lastRawUS <= c.lastUS }

  lemma StampPositive(c: HwClock, rawUS: nat, now: int, wrapUS: nat)
    requires Positive(c) && rawUS >= 1
    ensures var stamp := HardwareTimestamp(c, rawUS, now, wrapUS);
            Positive(stamp.clock) && stamp.clock.initialized && stamp.atUS >= 1
  {
  }

  lemma {:induction false} HwAfterOrdered(s: seq<Seen>, wrap: nat)
    requires wrap > 0
    ensures HwAfter(s, wrap).firstUS <= HwAfter(s, wrap).lastUS
  {
    if s != [] {
      HwAfterOrdered(s[..|s| - 1], wrap);
    }
  }
}
