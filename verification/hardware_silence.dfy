/** What host time does to the hardware window: a snapshot and an insertion carry it on by the time that
    has passed since the last device time, so a silent bus empties it. */
module HardwareSilence {
  import opened Basics
  import opened HostWindow
  import opened Clock
  import opened MeterSpec
  import opened HardwareWindow
  import opened MeterConservation
  import opened HardwareWindowRuns
  import opened MeterSnapshot
  import Can
  import Occupancy

  /** The device time the window has been rotated to when `elapsedNs` have passed since the clock's
      latest time: to the microsecond, and never back. */
  predicate CarriedOn(before: Hw, after: Hw, elapsedNs: int) {
    var present := before.clock.lastUS * 1000 + Max(elapsedNs, 0);
    && present - 1000 < after.seenUS * 1000
    && (before.window.originUS != 0 ==> before.seenUS <= after.seenUS)
    && (after.seenUS * 1000 <= present || after.seenUS == before.seenUS)
  }

  lemma SnapshotCarriesOn(m: Meter, now: int)
    requires Reports(m) && m.hw.clock.initialized
    ensures var r := SnapshotState(m, now).hw;
            CarriedOn(m.hw, r, now - m.hw.clock.lastHostNs) && r.clock == m.hw.clock && r.log == m.hw.log
  {
  }

  /** An insertion first carries the window on to the present: what has aged out by then is dropped
      whatever the device time of the new frame. */
  lemma InsertionCarriesOn(hw: Hw, rawUS: nat, now: int, wrapUS: nat)
    requires hw.clock.initialized && hw.window.originUS != 0
    requires !HardwareTimestamp(hw.clock, rawUS, now, wrapUS).restarted
    ensures var (stamped, _) := Stamped(hw, rawUS, now, wrapUS);
            stamped.seenUS * 1000 > hw.clock.lastUS * 1000 + (now - hw.clock.lastHostNs) - 1000
  {
  }

  lemma {:induction false} AllBefore(log: seq<Rec>, from: int, to: int)
    requires forall r :: r in log ==> r.at < from
    ensures TotalWithin(log, from, to) == EMPTY
  {
    if log != [] {
      assert log[|log| - 1] in log;
      AllBefore(log[..|log| - 1], from, to);
    }
  }

  /** A snapshot at least one window and one microsecond after the last frame that moved the device clock
      finds the hardware window empty, after every run. */
  lemma SilenceEmpties(nominal: nat, data: nat, ops: seq<Op>, now: int)
    ensures var m := Run(nominal, data, ops);
            m.hw.clock.initialized && now - m.hw.clock.lastHostNs >= WINDOW + 1000
            ==> Sum(SnapshotState(m, now).hw.window.slots) == EMPTY
  {
    var m := Run(nominal, data, ops);
    if m.hw.clock.initialized && now - m.hw.clock.lastHostNs >= WINDOW + 1000 {
      RunHw(nominal, data, ops);
      RunSane(nominal, data, ops);
      SnapshotCarriesOn(m, now);
      StepHw(m, Look(now));
      EmptyWhenOld(SnapshotState(m, now).hw);
    }
  }

  lemma EmptyWhenOld(hw: Hw)
    requires HwInv(hw) && hw.window.originUS != 0 && hw.seenUS * 1000 > hw.clock.lastUS * 1000 + WINDOW
    ensures Sum(hw.window.slots) == EMPTY
  {
    var seen := hw.seenUS * 1000;
    AllBefore(hw.log, seen - WINDOW, seen);
    AllBefore(hw.log, seen - WINDOW + SLOT, seen);
    HardwareWithinOneBucket(hw);
  }

  // ---------- one frame ----------

  /** The hardware half once a new meter has received one frame with a device time. */
  lemma FirstFrameIn(nominal: nat, data: nat, frame: Can.Frame, key: nat, at: int, wrapUS: nat)
    returns (occupiedNs: nat)
    requires frame.direction.Receive? && frame.timestampUS != 0 && nominal < Occupancy.MAX_BITRATE
    ensures occupiedNs > 0
    ensures var hw := Run(nominal, data, [Watch(frame, key, at, 0, wrapUS)]).hw;
            && hw.window == HwWindow(frame.timestampUS, NoSlots()[0 := Slot(occupiedNs, 1)])
            && hw.clock == HwClock(true, frame.timestampUS, frame.timestampUS, frame.timestampUS, at)
  {
    var m := Configure(nominal, data);
    var op := Watch(frame, key, at, 0, wrapUS);
    assert [op][..0] == [] && Run(nominal, data, [op]) == Step(Run(nominal, data, []), op);
    Occupancy.OccupancyIsPositive(frame, m.rates.nominal, m.rates.data);
    occupiedNs := ObservedOccupancy(m, frame, 0);
  }

  lemma OneSlotSum(x: Slot)
    ensures Sum(NoSlots()[0 := x]) == x
  {
    NoSlotsSum();
    SumUpdate(NoSlots(), 0, x);
  }

  lemma YoungStays(m: Meter, now: int)
    requires m.hw.clock.initialized && m.hw.clock.lastUS == m.hw.window.originUS
    requires Reports(m) && now - m.hw.clock.lastHostNs < WINDOW + 1000
    ensures SnapshotState(m, now).hw.window.slots == m.hw.window.slots
  {
  }

  /** It is counted for exactly one window and one microsecond of host time, whatever its device time. */
  lemma OneFrameUntil(nominal: nat, data: nat, frame: Can.Frame, key: nat, at: int, wrapUS: nat, now: int)
    requires frame.direction.Receive? && frame.timestampUS != 0 && nominal < Occupancy.MAX_BITRATE
    ensures var s := SnapshotState(Run(nominal, data, [Watch(frame, key, at, 0, wrapUS)]), now);
            Sum(s.hw.window.slots).frames == if now - at < 1_000_001_000 then 1 else 0
  {
    var ops := [Watch(frame, key, at, 0, wrapUS)];
    var occupiedNs := FirstFrameIn(nominal, data, frame, key, at, wrapUS);
    if now - at < WINDOW + 1000 {
      RunSane(nominal, data, ops);
      YoungStays(Run(nominal, data, ops), now);
      OneSlotSum(Slot(occupiedNs, 1));
    } else {
      SilenceEmpties(nominal, data, ops, now);
    }
  }
}
