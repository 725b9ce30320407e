/** What a snapshot reports, and the bit rates behind it, after any run of the meter: frames in any
    order of time, on the right edge or not. */
module MeterSnapshot {
  import opened Basics
  import opened HostWindow
  import opened Clock
  import opened MeterSpec
  import opened MeterConservation
  import BitCounter
  import Can
  import Occupancy

  /** What holds in every run. */
  predicate Sane(m: Meter) {
    && NonNegative(m.host.window.slots) && NonNegative(m.hw.window.slots)
    && m.hw.clock.firstUS <= m.hw.clock.lastUS
    && (m.host.window.origin.Some? ==> m.host.started.Some?)
    && (forall p :: p in m.pending ==> p.occupiedNs >= 0)
  }

  // ---------- host half ----------

  lemma RotateSane(w: Window, now: int)
    requires NonNegative(w.slots)
    ensures NonNegative(Rotate(w, now).slots)
  {
  }

  lemma AddSane(w: Window, occupiedNs: int, now: int)
    requires NonNegative(w.slots)
    ensures NonNegative(AddDuration(w, occupiedNs, now).slots)
  {
    RotateSane(w, now);
  }

  lemma RemoveSane(w: Window, at: int, occupiedNs: int)
    requires NonNegative(w.slots)
    ensures NonNegative(RemoveHost(w, at, occupiedNs).slots)
  {
    RotateSane(w, at);
  }

  // ---------- hardware half ----------

  lemma RotateHwSane(hw: Hw, atUS: nat)
    requires NonNegative(hw.window.slots)
    ensures NonNegative(RotateHw(hw, atUS).window.slots)
  {
  }

  lemma PutSane(hw: Hw, atUS: nat, occupiedNs: nat)
    requires NonNegative(hw.window.slots)
    ensures NonNegative(PutHardware(hw, atUS, occupiedNs).window.slots)
    ensures PutHardware(hw, atUS, occupiedNs).clock == hw.clock
  {
  }

  lemma AddHardwareSane(hw: Hw, rawUS: nat, now: int, wrapUS: nat, occupiedNs: nat)
    requires NonNegative(hw.window.slots) && hw.clock.firstUS <= hw.clock.lastUS
    ensures var r := AddHardware(hw, rawUS, now, wrapUS, occupiedNs);
            NonNegative(r.window.slots) && r.clock.firstUS <= r.clock.lastUS
  {
    StampKeepsOrder(hw.clock, rawUS, now, wrapUS, now);
    RotateHwSane(hw, HardwareNow(hw.clock, now));
    var stamp := HardwareTimestamp(hw.clock, rawUS, now, wrapUS);
    var w := if hw.clock.initialized then RotateHw(hw, HardwareNow(hw.clock, now)) else hw;
    var kept := if stamp.restarted then Restarted(hw) else w;
    RotateHwSane(kept.(clock := stamp.clock), stamp.atUS);
    var (stamped, atUS) := Stamped(hw, rawUS, now, wrapUS);
    PutSane(stamped, atUS, occupiedNs);
  }

  // ---------- operations ----------

  lemma RelocateSane(m: Meter, p: Pending, timestampUS: nat, now: int, wrapUS: nat, occupiedNs: nat)
    requires Sane(m)
    ensures var r := Relocate(m, p, timestampUS, now, wrapUS, occupiedNs);
            Sane(r) && r.rates == m.rates && r.configured == m.configured
  {
    RemoveSane(m.host.window, p.at, p.occupiedNs);
    AddHardwareSane(m.hw, timestampUS, now, wrapUS, occupiedNs);
  }

  lemma {:induction false} ExpireSubset(ps: seq<Pending>, now: int)
    ensures forall p :: p in Expire(ps, now) ==> p in ps
  {
    if ps != [] { ExpireSubset(ps[..|ps| - 1], now); }
  }

  lemma RecordTxSane(m: Meter, frame: Can.Frame, key: nat, now: int)
    requires Sane(m)
    ensures var r := RecordTx(m, frame, key, now);
            Sane(r) && r.rates == m.rates && r.configured == m.configured
  {
    if m.configured {
      AddSane(m.host.window, ModelOccupancy(m, frame), now);
      ExpireSubset(m.pending, now);
      var r := Recorded(m, frame, key, now);
      assert Sane(r);
      AdoptSane(r, key);
    }
  }

  lemma AdoptSane(r: Meter, key: nat)
    requires Sane(r) && r.pending != []
    ensures var q := AdoptEcho(r, key);
            Sane(q) && q.rates == r.rates && q.configured == r.configured
  {
    var i := FindEarly(r.early, key);
    if i < |r.early| {
      var echo, last, q := r.early[i], |r.pending| - 1, Adopted(r, i);
      assert r.pending[last] in r.pending;
      RelocateSane(q, q.pending[last], echo.frame.timestampUS, echo.at, echo.wrapUS, echo.occupiedNs);
    }
  }

  lemma ObserveTxSane(m: Meter, frame: Can.Frame, key: nat, now: int, wrapUS: nat, occupiedNs: nat)
    requires Sane(m)
    ensures var r := ObserveTx(m, frame, key, now, wrapUS, occupiedNs);
            Sane(r) && r.rates == m.rates && r.configured == m.configured
  {
    var i := Find(m.pending, key, true, now);
    if i < |m.pending| {
      var p := m.pending[i];
      assert p in m.pending;
      RelocateSane(m.(pending := m.pending[i := p.(confirmed := true)]), p, frame.timestampUS, now, wrapUS, occupiedNs);
    }
  }

  lemma ObserveRxSane(m: Meter, frame: Can.Frame, key: nat, now: int, wrapUS: nat, occupiedNs: nat)
    requires Sane(m)
    ensures var r := ObserveRx(m, frame, key, now, wrapUS, occupiedNs);
            Sane(r) && r.rates == m.rates && r.configured == m.configured
  {
    var i := Find(m.pending, key, false, now);
    if i < |m.pending| {
      var p := m.pending[i];
      assert forall q :: q in Without(m.pending, i) ==> q in m.pending;
      RelocateSane(m.(pending := Without(m.pending, i)), p, frame.timestampUS, now, wrapUS, occupiedNs);
    } else {
      AddHardwareSane(m.hw, frame.timestampUS, now, wrapUS, occupiedNs);
      AddSane(m.host.window, occupiedNs, now);
    }
  }

  lemma ObserveSane(m: Meter, frame: Can.Frame, key: nat, totalBitCount: nat, now: int, wrapUS: nat)
    requires Sane(m)
    ensures var r := Observe(m, frame, key, totalBitCount, now, wrapUS);
            Sane(r) && r.rates == m.rates && r.configured == m.configured
  {
    ExpireSubset(m.pending, now);
    var occupied := ObservedOccupancy(m, frame, totalBitCount);
    if frame.direction.Transmit? {
      ObserveTxSane(Expired(m, now), frame, key, now, wrapUS, occupied);
    } else {
      ObserveRxSane(Expired(m, now), frame, key, now, wrapUS, occupied);
    }
  }

  lemma SnapshotSane(m: Meter, now: int)
    requires Sane(m)
    ensures var r := SnapshotState(m, now);
            Sane(r) && r.rates == m.rates && r.configured == m.configured
            && (Reports(m) ==> r.host.window.origin.Some?)
  {
    RotateSane(m.host.window, now);
    RotateHwSane(m.hw, HardwareNow(m.hw.clock, now));
    ExpireSubset(m.pending, now);
  }

  lemma StepSane(m: Meter, op: Op)
    requires Sane(m)
    ensures var r := Step(m, op);
            Sane(r) && r.rates == m.rates && r.configured == m.configured
  {
    match op
    case Record(frame, key, now) => RecordTxSane(m, frame, key, now);
    case Watch(frame, key, now, totalBitCount, wrapUS) => ObserveSane(m, frame, key, totalBitCount, now, wrapUS);
    case Look(now) => SnapshotSane(m, now);
  }

  /** Whatever is recorded, observed and looked at, and at whatever times. */
  lemma {:induction false} RunSane(nominal: nat, data: nat, ops: seq<Op>)
    ensures var m := Run(nominal, data, ops);
            && Sane(m) && m.configured
            && m.rates == Rates(if nominal == 0 then 500_000 else nominal, if data == 0 then 2_000_000 else data)
    ensures Run(nominal, data, ops).rates.nominal > 0 && Run(nominal, data, ops).rates.data > 0
  {
    if ops != [] {
      RunSane(nominal, data, ops[..|ops| - 1]);
      StepSane(Run(nominal, data, ops[..|ops| - 1]), ops[|ops| - 1]);
    }
  }

  // ---------- reports ----------

  lemma Ratio(a: int, b: int)
    requires a >= 0 && b > 0
    ensures a as real / b as real >= 0.0
    ensures (a as real / b as real) * b as real == a as real
    ensures a as real / b as real > 1.0 <==> a > b
  {
  }

  /** The reported share of an averaging time of at most one window, capped at one. */
  predicate Truthful(load: BusLoad, counted: Slot) {
    && 0 < load.window <= WINDOW && 0.0 <= load.load <= 1.0
    && load.frameCount == counted.frames >= 0
    && if counted.occupiedNs <= load.window
       then load.load * load.window as real == counted.occupiedNs as real
       else load.load == 1.0
  }

  lemma ReportOf(s: Meter, now: int)
    requires Sane(s) && s.host.started.Some?
    ensures Truthful(Report(s, now), Counted(s))
  {
    SumNonNegative(s.host.window.slots);
    SumNonNegative(s.hw.window.slots);
    Ratio(Counted(s).occupiedNs, Denominator(s, now));
  }

  /** After any run, in whatever order of time, a snapshot never divides by zero, averages over at
      most one window, and reports the occupied share of it, capped at one. */
  lemma SnapshotReports(nominal: nat, data: nat, ops: seq<Op>, now: int)
    ensures var m := Run(nominal, data, ops);
            var s := SnapshotState(m, now);
            Reports(m) && s.host.started.Some? && Truthful(Report(s, now), Counted(s))
  {
    var m := Run(nominal, data, ops);
    RunSane(nominal, data, ops);
    SnapshotSane(m, now);
    ReportOf(SnapshotState(m, now), now);
  }

  /** A configured meter always has a data bit rate, so a measured bit count equal to the model's own
      is charged exactly what the model charges, for every frame. */
  lemma MeasuredIsModelInMeter(nominal: nat, data: nat, ops: seq<Op>, f: Can.Frame)
    requires nominal < Occupancy.MAX_BITRATE
    ensures var rates := Run(nominal, data, ops).rates;
            var (arb, bits) := Occupancy.FrameBitCounts(f);
            Occupancy.FrameOccupancyFromBitCount(f, arb + bits, rates.nominal, rates.data)
            == Occupancy.FrameOccupancy(f, rates.nominal, rates.data)
  {
    RunSane(nominal, data, ops);
    Occupancy.MeasuredEqualsModel(f, Run(nominal, data, ops).rates.nominal, Run(nominal, data, ops).rates.data);
  }
}
