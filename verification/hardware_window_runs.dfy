/** The one-bucket edge error of the hardware window, over whole runs of the meter: frames in any order
    of time, on the host window's right edge or not. */
module HardwareWindowRuns {
  import opened Basics
  import opened HostWindow
  import opened Clock
  import opened MeterSpec
  import opened HardwareWindow
  import opened MeterConservation
  import Can

  lemma RelocateHw(m: Meter, p: Pending, timestampUS: nat, now: int, wrapUS: nat, occupiedNs: nat)
    requires HwInv(m.hw)
    ensures HwInv(Relocate(m, p, timestampUS, now, wrapUS, occupiedNs).hw)
  {
    if timestampUS != 0 { AddHardwareTracks(m.hw, timestampUS, now, wrapUS, occupiedNs); }
  }

  lemma RecordTxHw(m: Meter, frame: Can.Frame, key: nat, now: int)
    requires HwInv(m.hw)
    ensures HwInv(RecordTx(m, frame, key, now).hw)
  {
    if m.configured {
      var r := Recorded(m, frame, key, now);
      var i := FindEarly(r.early, key);
      if i < |r.early| {
        var echo, q := r.early[i], Adopted(r, i);
        RelocateHw(q, q.pending[|q.pending| - 1], echo.frame.timestampUS, echo.at, echo.wrapUS, echo.occupiedNs);
      }
    }
  }

  lemma ObserveTxHw(m: Meter, frame: Can.Frame, key: nat, now: int, wrapUS: nat, occupiedNs: nat)
    requires HwInv(m.hw)
    ensures HwInv(ObserveTx(m, frame, key, now, wrapUS, occupiedNs).hw)
  {
    if frame.timestampUS != 0 { AddHardwareTracks(m.hw, frame.timestampUS, now, wrapUS, occupiedNs); }
  }

  lemma ObserveRxHw(m: Meter, frame: Can.Frame, key: nat, now: int, wrapUS: nat, occupiedNs: nat)
    requires HwInv(m.hw)
    ensures HwInv(ObserveRx(m, frame, key, now, wrapUS, occupiedNs).hw)
  {
    if frame.timestampUS != 0 { AddHardwareTracks(m.hw, frame.timestampUS, now, wrapUS, occupiedNs); }
  }

  lemma StepHw(m: Meter, op: Op)
    requires HwInv(m.hw)
    ensures HwInv(Step(m, op).hw)
  {
    match op
    case Record(frame, key, now) => RecordTxHw(m, frame, key, now);
    case Watch(frame, key, now, totalBitCount, wrapUS) =>
      ObserveTxHw(Expired(m, now), frame, key, now, wrapUS, ObservedOccupancy(m, frame, totalBitCount));
      ObserveRxHw(Expired(m, now), frame, key, now, wrapUS, ObservedOccupancy(m, frame, totalBitCount));
    case Look(now) =>
      if m.hw.clock.initialized { RotateHwTracks(m.hw, HardwareNow(m.hw.clock, now)); }
  }

  /** In every run the hardware buckets are true to their record. */
  lemma {:induction false} RunHw(nominal: nat, data: nat, ops: seq<Op>)
    ensures HwInv(Run(nominal, data, ops).hw)
  {
    if ops != [] {
      RunHw(nominal, data, ops[..|ops| - 1]);
      StepHw(Run(nominal, data, ops[..|ops| - 1]), ops[|ops| - 1]);
    }
  }

  /** The one-bucket edge error holds after every run that has opened the hardware window. */
  lemma DeviceTimeErrorIsOneBucket(nominal: nat, data: nat, ops: seq<Op>)
    ensures var hw := Run(nominal, data, ops).hw;
            hw.window.originUS != 0 ==> OneBucketError(hw)
  {
    RunHw(nominal, data, ops);
    var hw := Run(nominal, data, ops).hw;
    if hw.window.originUS != 0 { HardwareWithinOneBucket(hw); }
  }
}
