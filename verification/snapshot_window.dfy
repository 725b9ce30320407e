/** Which frames a snapshot of the meter counts (driver/internal/backend/busload.go:161-180, 222-238). */
module SnapshotWindow {
  import opened Basics
  import opened HostWindow
  import opened MeterSpec
  import opened HardwareWindow
  import opened HardwareWindowRuns
  import opened HardwareSilence
  import opened MeterConservation
  import opened MeterSnapshot
  import Can
  import Occupancy

  lemma HostUpToDate(m: Meter, before: int, now: int)
    requires Inv(m, before) && before <= now && Reports(m)
    ensures var h := SnapshotState(m, now).host;
            && AtMost(TotalWithin(h.log, now - WINDOW + SLOT, now), Sum(h.window.slots))
            && AtMost(Sum(h.window.slots), TotalWithin(h.log, now - WINDOW, now))
  {
    RotateHostKeeps(m.host, before, now);
    SumWithinOneBucket(RotateHost(m.host, now).window, m.host.log, now);
  }

  /** After every ordered run without a transmission on the right edge, a snapshot counts in the host window the
      frames of the last second that have not been moved, give or take one millisecond at its far end; and
      the same in device time in the hardware window. */
  lemma SnapshotWithinOneBucket(nominal: nat, data: nat, ops: seq<Op>, now: int)
    requires nominal < Occupancy.MAX_BITRATE
    requires Ordered(ops) && AllInside(nominal, data, ops) && (ops != [] ==> ops[|ops| - 1].now <= now)
    ensures var s := SnapshotState(Run(nominal, data, ops), now);
            && AtMost(TotalWithin(s.host.log, now - 999_000_000, now), Sum(s.host.window.slots))
            && AtMost(Sum(s.host.window.slots), TotalWithin(s.host.log, now - 1_000_000_000, now))
            && (s.hw.window.originUS != 0 ==> OneBucketError(s.hw))
  {
    var m := Run(nominal, data, ops);
    RunKeeps(nominal, data, ops, now);
    RunSane(nominal, data, ops);
    HostUpToDate(m, now, now);
    RunHw(nominal, data, ops);
    StepHw(m, Look(now));
    var hw := SnapshotState(m, now).hw;
    if hw.window.originUS != 0 { HardwareWithinOneBucket(hw); }
  }

  // ---------- one frame ----------

  lemma FirstHostFrame(nominal: nat, data: nat, frame: Can.Frame, key: nat, at: int, wrapUS: nat)
    returns (occupiedNs: nat)
    requires frame.direction.Receive? && frame.timestampUS == 0 && nominal < Occupancy.MAX_BITRATE
    ensures occupiedNs > 0
    ensures Run(nominal, data, [Watch(frame, key, at, 0, wrapUS)]).host.window
            == Window(Some(at), NoSlots()[0 := Slot(occupiedNs, 1)])
  {
    var m, op := Configure(nominal, data), Watch(frame, key, at, 0, wrapUS);
    assert [op][..0] == [] && Run(nominal, data, [op]) == Step(Run(nominal, data, []), op);
    Occupancy.OccupancyIsPositive(frame, m.rates.nominal, m.rates.data);
    occupiedNs := ObservedOccupancy(m, frame, 0);
  }

  lemma ShiftedAway(x: Slot, shift: nat)
    requires shift >= 1
    ensures Shifted(NoSlots()[0 := x], shift) == NoSlots()
  {
    var s := NoSlots()[0 := x];
    forall i | 0 <= i < COUNT ensures Shifted(s, shift)[i] == NoSlots()[i] {
      assert i + shift < COUNT ==> s[i + shift] == EMPTY;
    }
  }

  lemma FirstSlotLeaves(at: int, x: Slot, now: int)
    ensures Rotate(Window(Some(at), NoSlots()[0 := x]), now).slots
            == if now - at <= 1_000_000_000 then NoSlots()[0 := x] else NoSlots()
  {
    if now - at > WINDOW && ShiftFor(now - at) < COUNT { ShiftedAway(x, ShiftFor(now - at)); }
  }

  /** A frame without a device time, heard by a new meter, is counted for exactly one second. */
  lemma OneHostFrameUntil(nominal: nat, data: nat, frame: Can.Frame, key: nat, at: int, wrapUS: nat, now: int)
    requires frame.direction.Receive? && frame.timestampUS == 0 && nominal < Occupancy.MAX_BITRATE
    ensures var s := SnapshotState(Run(nominal, data, [Watch(frame, key, at, 0, wrapUS)]), now);
            Sum(s.host.window.slots).frames == if now - at <= 1_000_000_000 then 1 else 0
  {
    var occupiedNs := FirstHostFrame(nominal, data, frame, key, at, wrapUS);
    RunSane(nominal, data, [Watch(frame, key, at, 0, wrapUS)]);
    FirstSlotLeaves(at, Slot(occupiedNs, 1), now);
    OneSlotSum(Slot(occupiedNs, 1));
    NoSlotsSum();
  }
}
