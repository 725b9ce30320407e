/** Over which time a snapshot averages, and from when on (driver/internal/backend/busload.go:161-213,
    263-289, 355-360). */
module Averaging {
  import opened Basics
  import opened HostWindow
  import opened Clock
  import opened MeterSpec
  import opened MeterConservation
  import Can
  import Occupancy

  /** How long the device has been heard, in whole microseconds: from its first time to its latest, and on in
      host time. */
  function HeardFor(c: HwClock, now: int): int {
    if !c.initialized then 0 else (c.lastUS - c.firstUS) * 1000 + Max(now - c.lastHostNs, 0) / 1000 * 1000
  }

  /** A snapshot averages over the longer of the host's and the device's age, up to one window; over a whole
      window when neither has an age yet. */
  lemma AveragesOverLongest(m: Meter, now: int)
    requires m.host.started.Some? && m.hw.clock.firstUS <= m.hw.clock.lastUS
    ensures var longest := Max(now - m.host.started.value, HeardFor(m.hw.clock, now));
            Report(m, now).window == if 0 < longest < WINDOW then longest else WINDOW
  {
  }

  // ---------- when measurement starts ----------

  lemma RemoveKeepsStart(h: Host, p: Pending)
    requires h.window.origin.Some?
    ensures RemoveFromHost(h, p).started == h.started && RemoveFromHost(h, p).window.origin.Some?
  {
  }

  /** A relocation never restarts the measurement. */
  lemma RelocateKeepsStart(m: Meter, p: Pending, timestampUS: nat, at: int, wrapUS: nat, occupiedNs: nat)
    requires m.host.window.origin.Some? && m.host.started.Some?
    ensures var r := Relocate(m, p, timestampUS, at, wrapUS, occupiedNs);
            r.host.started == m.host.started && r.host.window.origin.Some?
  {
    RemoveKeepsStart(m.host, p);
  }

  /** Once the host window is open the start of measurement never moves. */
  predicate StartKept(m: Meter, r: Meter) {
    m.host.window.origin.Some? ==> r.host.started == m.host.started && r.host.window.origin.Some?
  }

  lemma RecordKeepsStart(m: Meter, frame: Can.Frame, key: nat, now: int)
    requires m.host.window.origin.Some? && m.host.started.Some?
    ensures StartKept(m, RecordTx(m, frame, key, now))
  {
    if m.configured {
      var r := Recorded(m, frame, key, now);
      var i := FindEarly(r.early, key);
      if i < |r.early| {
        var echo, q := r.early[i], Adopted(r, i);
        RelocateKeepsStart(q, q.pending[|q.pending| - 1],
                           echo.frame.timestampUS, echo.at, echo.wrapUS, echo.occupiedNs);
      }
    }
  }

  lemma ObserveTxKeepsStart(m: Meter, frame: Can.Frame, key: nat, now: int, wrapUS: nat, occupiedNs: nat)
    requires m.host.window.origin.Some? && m.host.started.Some?
    ensures StartKept(m, ObserveTx(m, frame, key, now, wrapUS, occupiedNs))
  {
    var i := Find(m.pending, key, true, now);
    if i < |m.pending| {
      var p := m.pending[i];
      RelocateKeepsStart(m.(pending := m.pending[i := p.(confirmed := true)]), p,
                         frame.timestampUS, now, wrapUS, occupiedNs);
    }
  }

  lemma ObserveRxKeepsStart(m: Meter, frame: Can.Frame, key: nat, now: int, wrapUS: nat, occupiedNs: nat)
    requires m.host.window.origin.Some? && m.host.started.Some?
    ensures StartKept(m, ObserveRx(m, frame, key, now, wrapUS, occupiedNs))
  {
    var i := Find(m.pending, key, false, now);
    if i < |m.pending| {
      RelocateKeepsStart(m.(pending := Without(m.pending, i)), m.pending[i],
                         frame.timestampUS, now, wrapUS, occupiedNs);
    }
  }

  lemma StepKeepsStart(m: Meter, op: Op)
    requires m.host.window.origin.Some? && m.host.started.Some?
    ensures StartKept(m, Step(m, op))
  {
    match op
    case Record(frame, key, now) => RecordKeepsStart(m, frame, key, now);
    case Watch(frame, key, now, totalBitCount, wrapUS) =>
      var occupied := ObservedOccupancy(m, frame, totalBitCount);
      ObserveTxKeepsStart(Expired(m, now), frame, key, now, wrapUS, occupied);
      ObserveRxKeepsStart(Expired(m, now), frame, key, now, wrapUS, occupied);
    case Look(now) =>
  }

  /** A meter that is looked at first has been measuring since that moment, whatever follows: its snapshots
      average over the time since then until a whole window has passed, unless the device has been heard
      for longer. */
  lemma {:induction false} MeasuresSinceFirstLook(nominal: nat, data: nat, first: int, ops: seq<Op>)
    ensures var m := Run(nominal, data, [Look(first)] + ops);
            m.host.window.origin.Some? && m.host.started == Some(first)
  {
    var all := [Look(first)] + ops;
    if ops == [] {
      assert all == [Look(first)] && all[..0] == [];
      assert Run(nominal, data, all) == Step(Run(nominal, data, []), Look(first));
    } else {
      var front, op := ops[..|ops| - 1], ops[|ops| - 1];
      assert all[..|all| - 1] == [Look(first)] + front && all[|all| - 1] == op;
      MeasuresSinceFirstLook(nominal, data, first, front);
      StepKeepsStart(Run(nominal, data, [Look(first)] + front), op);
    }
  }

  /** Frames with a device time alone start the measurement with the first of them; the first look, which opens
      the host window, starts it anew, and only the device's age remembers the frames before. */
  lemma FirstLookRestarts(nominal: nat, data: nat, frame: Can.Frame, key: nat, at: int, wrapUS: nat, now: int)
    requires frame.direction.Receive? && frame.timestampUS != 0 && nominal < Occupancy.MAX_BITRATE
    ensures var m := Run(nominal, data, [Watch(frame, key, at, 0, wrapUS)]);
            && m.host.started == Some(at) && m.host.window.origin.None?
            && var s := SnapshotState(m, now);
               s.host.started == Some(now)
               && Report(s, now).window
                  == var heard := Max(now - at, 0) / 1000 * 1000; if 0 < heard < WINDOW then heard else WINDOW
  {
    var m, op := Configure(nominal, data), Watch(frame, key, at, 0, wrapUS);
    assert [op][..0] == [] && Run(nominal, data, [op]) == Step(Run(nominal, data, []), op);
    Occupancy.OccupancyIsPositive(frame, m.rates.nominal, m.rates.data);
    var r := Run(nominal, data, [op]);
    AveragesOverLongest(SnapshotState(r, now), now);
  }
}
