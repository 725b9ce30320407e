/** The bus-load meter as the program has it: one object with two bucket arrays that are shifted
    and cleared in place (driver/internal/backend/busload.go:36-427), proved against MeterSpec. */
module MeterObject {
  import opened Basics
  import opened HostWindow
  import opened Clock
  import opened MeterSpec
  import opened FrameKey
  import Can
  import Occupancy

  /** `copy(a, a[shift:])`; the tail keeps what it had. */
  method CopyDown(a: array<Slot>, shift: nat)
    requires a.Length == COUNT && shift <= COUNT
    modifies a
    ensures a[..COUNT - shift] == old(a[..])[shift..]
  {
    ghost var before := a[..];
    for i := 0 to COUNT - shift
      invariant a[..i] == before[shift..shift + i] && a[i..] == before[i..]
    {
      assert a[i..][shift] == before[i..][shift];
      a[i] := a[i + shift];
      assert a[i + 1..] == before[i..][1..];
    }
  }

  method ClearFrom(a: array<Slot>, from: nat)
    requires a.Length == COUNT && from <= COUNT
    modifies a
    ensures forall j :: 0 <= j < COUNT ==> a[j] == if j < from then old(a[j]) else EMPTY
  {
    for i := from to COUNT
      invariant forall j :: 0 <= j < from || i <= j < COUNT ==> a[j] == old(a[j])
      invariant forall j :: from <= j < i ==> a[j] == EMPTY
    {
      a[i] := EMPTY;
    }
  }

  method ShiftDown(a: array<Slot>, shift: nat)
    requires a.Length == COUNT && shift <= COUNT
    modifies a
    ensures a[..] == Shifted(old(a[..]), shift)
  {
    CopyDown(a, shift);
    ghost var copied := a[..COUNT - shift];
    ClearFrom(a, COUNT - shift);
    assert a[..COUNT - shift] == copied;
  }

  method Clear(a: array<Slot>)
    requires a.Length == COUNT
    modifies a
    ensures a[..] == NoSlots()
  {
    ClearFrom(a, 0);
  }

  method Total(a: array<Slot>) returns (total: Slot)
    requires a.Length == COUNT
    ensures total == Sum(a[..])
  {
    total := EMPTY;
    for i := 0 to COUNT
      invariant total == Sum(a[..i])
    {
      total := Plus(total, a[i]);
      assert a[..i + 1][..i] == a[..i];
    }
    assert a[..COUNT] == a[..];
  }

  method AnyFrames(a: array<Slot>) returns (any: bool)
    requires a.Length == COUNT
    ensures any == HasFrames(a[..])
  {
    for i := 0 to COUNT
      invariant forall j :: 0 <= j < i ==> a[j].frames == 0
    {
      if a[i].frames != 0 {
        assert a[..][i].frames != 0;
        return true;
      }
    }
    return false;
  }

  /** The model's own part of the hardware half. */
  datatype HwRecord = HwRecord(log: seq<Rec>, seenUS: nat, past: Past)

  class BusLoadMeter {
    var configured: bool
    var rates: Rates
    const slots: array<Slot>
    const hwSlots: array<Slot>
    var origin: Option<int>
    var started: Option<int>
    var hwOriginUS: nat
    var clock: HwClock
    var pending: seq<Pending>
    var early: seq<Echo>
    /** Numbers the transmissions; the tickets of the pending list. */
    var serial: nat
    ghost var log: seq<Rec>
    ghost var tally: Tally
    ghost var hwRecord: HwRecord

    ghost predicate Shaped() {
      slots != hwSlots && slots.Length == COUNT && hwSlots.Length == COUNT
    }

    /** And the device clock never falls below its first time. */
    ghost predicate Valid()
      reads this`serial, this`log, this`clock
    {
      Shaped() && serial == |log| && clock.firstUS <= clock.lastUS
    }

    ghost function HostValue(): Host
      reads this`origin, this`started, this`log, slots
      requires Shaped()
    {
      Host(Window(origin, slots[..]), started, log)
    }

    ghost function HwValue(): Hw
      reads this`hwOriginUS, this`clock, this`hwRecord, hwSlots
      requires Shaped()
    {
      Hw(HwWindow(hwOriginUS, hwSlots[..]), clock, hwRecord.log, hwRecord.seenUS, hwRecord.past)
    }

    ghost function Value(): Meter
      reads this, slots, hwSlots
      requires Shaped()
    {
      Meter(configured, rates, HostValue(), HwValue(), pending, early, tally)
    }

    constructor ()
      ensures Valid() && Value() == Unconfigured && fresh(slots) && fresh(hwSlots)
    {
      configured, rates := false, Rates(0, 0);
      slots := new Slot[COUNT](_ => EMPTY);
      hwSlots := new Slot[COUNT](_ => EMPTY);
      origin, started, hwOriginUS, clock := None, None, 0, HwReset;
      pending, early, serial, log, tally := [], [], 0, [], NoTally;
      hwRecord := HwRecord([], 0, Past(0, 0));
      new;
      assert slots[..] == NoSlots() && hwSlots[..] == NoSlots();
    }

    method Configure(nominalBitrate: nat, dataBitrate: nat)
      requires Valid()
      modifies this, slots, hwSlots
      ensures Valid() && Value() == MeterSpec.Configure(nominalBitrate, dataBitrate)
    {
      var nominal, data := nominalBitrate, dataBitrate;
      if nominal == 0 { nominal := 500_000; }
      if data == 0 { data := 2_000_000; }
      configured, rates := true, Rates(nominal, data);
      pending, early, tally := [], [], NoTally;
      ResetHost();
      ResetHardware();
      assert HostValue() == Host(Fresh, None, []) && HwValue() == HwFresh;
    }

    method ResetHost()
      requires Valid()
      modifies this`origin, this`started, this`serial, this`log, slots
      ensures Valid() && HostValue() == Host(Fresh, None, [])
    {
      Clear(slots);
      origin, started, serial, log := None, None, 0, [];
    }

    method ResetHardware()
      requires Valid()
      modifies this`hwOriginUS, this`clock, this`hwRecord, hwSlots
      ensures Valid() && HwValue() == HwFresh
    {
      Clear(hwSlots);
      hwOriginUS, clock, hwRecord := 0, HwReset, HwRecord([], 0, Past(0, 0));
    }

    // ---------- host window ----------

    method Rotate(now: int)
      requires Valid()
      modifies this`origin, this`started, slots
      ensures HostValue() == RotateHost(old(HostValue()), now)
    {
      if origin.None? {
        origin, started := Some(now), Some(now);
        return;
      }
      if now < origin.value { return; }
      var elapsed := now - origin.value;
      if elapsed <= WINDOW { return; }
      var shift := (elapsed - WINDOW + SLOT - 1) / SLOT;
      if shift < 1 { shift := 1; }
      if shift >= COUNT {
        Clear(slots);
        origin := Some(now);
        return;
      }
      ShiftDown(slots, shift);
      origin := Some(origin.value + shift * SLOT);
    }

    method IndexOf(at: int) returns (idx: int)
      requires Valid() && origin.Some?
      ensures idx == SlotIndex(HostValue().window, at) < COUNT
    {
      idx := TruncDiv(at - origin.value, SLOT);
      if idx >= COUNT { idx := COUNT - 1; }
    }

    method AddDurationLocked(occupiedNs: int, now: int)
      requires Valid()
      modifies this`origin, this`started, this`serial, this`log, slots
      ensures Valid() && HostValue() == AddHost(old(HostValue()), occupiedNs, now)
    {
      if occupiedNs <= 0 { return; }
      ghost var rec := NewRec(HostValue().window, occupiedNs, now);
      Rotate(now);
      serial, log := serial + 1, log + [rec];
      var idx := IndexOf(now);
      if idx < 0 { return; }
      slots[idx] := Slot(slots[idx].occupiedNs + occupiedNs, slots[idx].frames + 1);
    }

    method RemoveHostLocked(p: Pending)
      requires Valid()
      modifies this`origin, this`started, this`log, slots
      ensures Valid() && HostValue() == RemoveFromHost(old(HostValue()), p)
    {
      Rotate(p.at);
      log := MarkMoved(log, p.ticket);
      if p.at < origin.value { return; }
      var idx := IndexOf(p.at);
      if idx < 0 || slots[idx].frames == 0 || slots[idx].occupiedNs < p.occupiedNs { return; }
      slots[idx] := Slot(slots[idx].occupiedNs - p.occupiedNs, slots[idx].frames - 1);
    }

    // ---------- hardware window ----------

    method RotateHardware(atUS: nat)
      requires Valid()
      modifies this`hwOriginUS, this`hwRecord, hwSlots
      ensures HwValue() == RotateHw(old(HwValue()), atUS)
    {
      hwRecord := hwRecord.(seenUS := if hwOriginUS == 0 then atUS else Max(hwRecord.seenUS, atUS));
      if hwOriginUS == 0 {
        hwOriginUS := atUS;
        return;
      }
      if atUS <= hwOriginUS { return; }
      if atUS - hwOriginUS <= WINDOW_US { return; }
      ShiftHardware(atUS);
    }

    method ShiftHardware(atUS: nat)
      requires Valid() && hwOriginUS != 0 && atUS > hwOriginUS + WINDOW_US
      modifies this`hwOriginUS, hwSlots
      ensures HwWindow(hwOriginUS, hwSlots[..]) == MeterSpec.RotateHardware(old(HwValue().window), atUS)
    {
      var elapsed := atUS - hwOriginUS;
      var shift := (elapsed - WINDOW_US + SLOT_US - 1) / SLOT_US;
      if shift >= COUNT {
        Clear(hwSlots);
        hwOriginUS := atUS;
        return;
      }
      ShiftDown(hwSlots, shift);
      hwOriginUS := hwOriginUS + shift * SLOT_US;
    }

    method Timestamp(rawUS: nat, now: int, wrapPeriodUS: nat) returns (atUS: nat)
      requires Valid()
      modifies this`hwOriginUS, this`clock, this`hwRecord, hwSlots
      ensures Valid()
      ensures var stamp := HardwareTimestamp(old(clock), rawUS, now, wrapPeriodUS);
              && atUS == stamp.atUS
              && HwValue()
                 == (if stamp.restarted then Restarted(old(HwValue())) else old(HwValue())).(clock := stamp.clock)
    {
      if !clock.initialized {
        clock := HwClock(true, rawUS, rawUS, rawUS, now);
        return rawUS;
      }
      if rawUS < clock.lastRawUS {
        var backward := clock.lastRawUS - rawUS;
        if wrapPeriodUS > 0 && backward > wrapPeriodUS / 2 && clock.lastRawUS < wrapPeriodUS {
          clock := clock.(lastUS := clock.lastUS + (wrapPeriodUS - clock.lastRawUS + rawUS));
        } else if backward <= WINDOW_US && backward <= clock.lastUS {
          return clock.lastUS - backward;
        } else {
          Clear(hwSlots);
          hwOriginUS, hwRecord := 0, HwRecord([], 0, Forget(hwRecord.past, hwRecord.log));
          clock := clock.(lastUS := rawUS, firstUS := rawUS);
        }
      } else {
        clock := clock.(lastUS := clock.lastUS + (rawUS - clock.lastRawUS));
      }
      clock := clock.(lastRawUS := rawUS, lastHostNs := now);
      return clock.lastUS;
    }

    /** Rotation to the present, the device time, rotation to that. */
    method Stamp(rawUS: nat, now: int, wrapPeriodUS: nat) returns (atUS: nat)
      requires Valid()
      modifies this`hwOriginUS, this`clock, this`hwRecord, hwSlots
      ensures Valid() && (HwValue(), atUS) == Stamped(old(HwValue()), rawUS, now, wrapPeriodUS)
    {
      if clock.initialized { RotateHardware(HardwareNow(clock, now)); }
      atUS := Timestamp(rawUS, now, wrapPeriodUS);
      RotateHardware(atUS);
    }

    ghost method RefuseHardware()
      requires Shaped()
      modifies this`hwRecord
      ensures HwValue() == Refused(old(HwValue()))
    {
      var past := hwRecord.past;
      hwRecord := hwRecord.(past := past.(refused := past.refused + 1));
    }

    method Put(atUS: nat, occupiedNs: nat) returns (accepted: bool)
      requires Valid()
      modifies this`hwOriginUS, this`hwRecord, hwSlots
      ensures accepted == !TooOld(old(HwValue().window), atUS)
      ensures HwValue() == PutHardware(old(HwValue()), atUS, occupiedNs)
    {
      if atUS < hwOriginUS {
        var any := AnyFrames(hwSlots);
        if any {
          RefuseHardware();
          return false;
        }
        hwOriginUS, hwRecord := atUS, HwRecord([], atUS, Forget(hwRecord.past, hwRecord.log));
      }
      hwRecord := hwRecord.(log := hwRecord.log + [HwRec(HwWindow(hwOriginUS, hwSlots[..]), atUS, occupiedNs)]);
      var idx := (atUS - hwOriginUS) / SLOT_US;
      if idx >= COUNT { idx := COUNT - 1; }
      hwSlots[idx] := Slot(hwSlots[idx].occupiedNs + occupiedNs, hwSlots[idx].frames + 1);
      return true;
    }

    method AddHardwareLocked(rawUS: nat, now: int, wrapPeriodUS: nat, occupiedNs: nat)
      requires Valid()
      modifies this`hwOriginUS, this`clock, this`hwRecord, this`started, hwSlots
      ensures Valid() && HwValue() == AddHardware(old(HwValue()), rawUS, now, wrapPeriodUS, occupiedNs)
      ensures started == StartedBy(old(started), Accepted(old(HwValue()), rawUS, now, wrapPeriodUS, occupiedNs), now)
    {
      if occupiedNs == 0 {
        RefuseHardware();
        return;
      }
      var atUS := Stamp(rawUS, now, wrapPeriodUS);
      var accepted := Put(atUS, occupiedNs);
      if !accepted { return; }
      if started.None? { started := Some(now); }
    }

    // ---------- pending transmissions ----------

    method ExpirePending(now: int)
      modifies this`pending
      ensures pending == Expire(old(pending), now)
    {
      var kept := [];
      for i := 0 to |pending|
        invariant pending == old(pending) && kept == Expire(pending[..i], now)
      {
        assert pending[..i + 1][..i] == pending[..i];
        if now - pending[i].at <= PENDING_ECHO_TTL { kept := kept + [pending[i]]; }
      }
      assert pending[..|pending|] == pending;
      pending := kept;
    }

    method ExpireEarlyTx(now: int)
      modifies this`early
      ensures early == ExpireEarly(old(early), now)
    {
      var kept := [];
      for i := 0 to |early|
        invariant early == old(early) && kept == ExpireEarly(early[..i], now)
      {
        assert early[..i + 1][..i] == early[..i];
        if now - early[i].at <= PENDING_TX_TTL { kept := kept + [early[i]]; }
      }
      assert early[..|early|] == early;
      early := kept;
    }

    method FindPending(key: nat, unconfirmedOnly: bool, now: int) returns (i: nat)
      ensures i == Find(pending, key, unconfirmedOnly, now)
    {
      i := 0;
      while i < |pending|
        invariant i <= |pending|
        invariant i + Find(pending[i..], key, unconfirmedOnly, now) == Find(pending, key, unconfirmedOnly, now)
      {
        var p := pending[i];
        if !(p.key != key || (unconfirmedOnly && p.confirmed)
             || (!unconfirmedOnly && now - p.at > PENDING_TX_TTL)) {
          return;
        }
        assert pending[i..][1..] == pending[i + 1..];
        i := i + 1;
      }
    }

    method FindEarlyTx(key: nat) returns (i: nat)
      ensures i == FindEarly(early, key)
    {
      i := 0;
      while i < |early|
        invariant i <= |early| && i + FindEarly(early[i..], key) == FindEarly(early, key)
      {
        if early[i].key == key { return; }
        assert early[i..][1..] == early[i + 1..];
        i := i + 1;
      }
    }

    method PushPending(key: nat, now: int, occupiedNs: int, ticket: nat)
      modifies this`pending
      ensures pending == DropOldest(Expire(old(pending), now)) + [Pending(key, now, occupiedNs, false, ticket)]
    {
      ExpirePending(now);
      if |pending| >= MAX_PENDING { pending := pending[1..]; }
      pending := pending + [Pending(key, now, occupiedNs, false, ticket)];
    }

    method RelocatePending(p: Pending, timestampUS: nat, now: int, wrapPeriodUS: nat, occupiedNs: nat)
      requires Valid()
      modifies this`origin, this`started, this`log, this`hwOriginUS, this`clock, this`hwRecord,
               slots, hwSlots
      ensures Valid() && Value() == Relocate(old(Value()), p, timestampUS, now, wrapPeriodUS, occupiedNs)
    {
      if timestampUS == 0 { return; }
      ghost var moved := Relocate(Value(), p, timestampUS, now, wrapPeriodUS, occupiedNs);
      RemoveHostLocked(p);
      ghost var host := HostValue();
      assert HwValue() == old(HwValue());
      AddHardwareLocked(timestampUS, now, wrapPeriodUS, occupiedNs);
      assert HostValue() == host.(started := started) == moved.host;
      assert HwValue() == moved.hw;
    }

    // ---------- operations ----------

    method AdoptEchoLocked(key: nat)
      requires Valid() && pending != []
      modifies this`origin, this`started, this`log, this`hwOriginUS, this`clock, this`hwRecord,
               this`pending, this`early, slots, hwSlots
      ensures Valid() && Value() == AdoptEcho(old(Value()), key)
    {
      var i := FindEarlyTx(key);
      if i == |early| { return; }
      var echo := early[i];
      early := early[..i] + early[i + 1..];
      var last := |pending| - 1;
      pending := pending[last := pending[last].(confirmed := true)];
      assert Value() == Adopted(old(Value()), i);
      RelocatePending(pending[last], echo.frame.timestampUS, echo.at, echo.wrapUS, echo.occupiedNs);
    }

    method RecordLocked(frame: Can.Frame, key: nat, now: int)
      requires Valid() && configured
      modifies this`origin, this`started, this`serial, this`log, this`pending, this`early, slots
      ensures Valid() && pending != [] && Value() == Recorded(old(Value()), frame, key, now)
    {
      var occupied := Occupancy.FrameOccupancy(frame, rates.nominal, rates.data);
      var ticket := serial;
      AddDurationLocked(occupied, now);
      PushPending(key, now, occupied, ticket);
      ExpireEarlyTx(now);
      assert HostValue() == AddHost(old(HostValue()), occupied, now) && HwValue() == old(HwValue());
    }

    method RecordTx(frame: Can.Frame, now: int)
      requires Valid()
      modifies this, slots, hwSlots
      ensures Valid() && Value() == MeterSpec.RecordTx(old(Value()), frame, BusFrameKey(frame), now)
    {
      if !configured { return; }
      var key := ComputeKey(frame);
      RecordLocked(frame, key, now);
      AdoptEchoLocked(key);
    }

    method ObserveTransmitted(frame: Can.Frame, key: nat, now: int, wrapPeriodUS: nat, occupiedNs: nat)
      requires Valid()
      modifies this`origin, this`started, this`log, this`hwOriginUS, this`clock, this`hwRecord,
               this`pending, this`early, slots, hwSlots
      ensures Valid() && Value() == ObserveTx(old(Value()), frame, key, now, wrapPeriodUS, occupiedNs)
    {
      var i := FindPending(key, true, now);
      if i < |pending| {
        if !pending[i].confirmed {
          var p := pending[i];
          pending := pending[i := p.(confirmed := true)];
          RelocatePending(p, frame.timestampUS, now, wrapPeriodUS, occupiedNs);
        }
      } else if frame.timestampUS != 0 {
        if |early| >= MAX_PENDING { early := early[1..]; }
        early := early + [Echo(frame, key, now, wrapPeriodUS, occupiedNs)];
      }
    }

    method ConsumeLocked(i: nat, frame: Can.Frame, now: int, wrapPeriodUS: nat, occupiedNs: nat)
      requires Valid() && i < |pending|
      modifies this`origin, this`started, this`log, this`hwOriginUS, this`clock, this`hwRecord,
               this`pending, this`tally, slots, hwSlots
      ensures Valid() && Value() == Consume(old(Value()), i, frame, now, wrapPeriodUS, occupiedNs)
    {
      var p := pending[i];
      pending := pending[..i] + pending[i + 1..];
      tally := tally.(echoes := tally.echoes + 1);
      assert Value() == old(Value()).(pending := pending, tally := tally);
      if !p.confirmed {
        RelocatePending(p, frame.timestampUS, now, wrapPeriodUS, occupiedNs);
      }
    }

    method AddReceived(timestampUS: nat, now: int, wrapPeriodUS: nat, occupiedNs: nat)
      requires Valid()
      modifies this`started, this`hwOriginUS, this`clock, this`hwRecord, this`tally, hwSlots
      ensures Valid()
      ensures Value() == MeterSpec.AddHardwareLocked(old(Value()), timestampUS, now, wrapPeriodUS, occupiedNs)
                         .(tally := old(tally).(stamped := old(tally).stamped + 1))
    {
      AddHardwareLocked(timestampUS, now, wrapPeriodUS, occupiedNs);
      tally := tally.(stamped := tally.stamped + 1);
      assert HostValue() == old(HostValue()).(started := started);
    }

    method ObserveReceived(frame: Can.Frame, key: nat, now: int, wrapPeriodUS: nat, occupiedNs: nat)
      requires Valid()
      modifies this`origin, this`started, this`serial, this`log, this`hwOriginUS, this`clock, this`hwRecord,
               this`pending, this`tally, slots, hwSlots
      ensures Valid() && Value() == ObserveRx(old(Value()), frame, key, now, wrapPeriodUS, occupiedNs)
    {
      var i := FindPending(key, false, now);
      if i < |pending| {
        ConsumeLocked(i, frame, now, wrapPeriodUS, occupiedNs);
      } else if frame.timestampUS != 0 {
        AddReceived(frame.timestampUS, now, wrapPeriodUS, occupiedNs);
      } else {
        if occupiedNs == 0 { tally := tally.(weightless := tally.weightless + 1); }
        AddDurationLocked(occupiedNs, now);
        assert HwValue() == old(HwValue());
      }
    }

    method ObserveWithBitCount(frame: Can.Frame, totalBitCount: nat, now: int, wrapPeriodUS: nat)
      requires Valid()
      modifies this, slots, hwSlots
      ensures Valid() && Value() == Observe(old(Value()), frame, BusFrameKey(frame), totalBitCount, now, wrapPeriodUS)
    {
      if !configured { return; }
      var key := ComputeKey(frame);
      var occupied := Occupancy.FrameOccupancy(frame, rates.nominal, rates.data);
      if totalBitCount != 0 {
        occupied := Occupancy.FrameOccupancyFromBitCount(frame, totalBitCount + 3, rates.nominal, rates.data);
      }
      ExpirePending(now);
      ExpireEarlyTx(now);
      assert Value() == Expired(old(Value()), now);
      if frame.direction.Transmit? {
        ObserveTransmitted(frame, key, now, wrapPeriodUS, occupied);
      } else {
        ObserveReceived(frame, key, now, wrapPeriodUS, occupied);
      }
    }

    method Refresh(now: int)
      requires Valid() && configured && rates.nominal != 0
      modifies this`origin, this`started, this`hwOriginUS, this`hwRecord, this`pending, this`early, slots, hwSlots
      ensures Valid() && Value() == SnapshotState(old(Value()), now)
    {
      ghost var refreshed := SnapshotState(Value(), now);
      Rotate(now);
      ghost var host := HostValue();
      assert HwValue() == old(HwValue());
      if clock.initialized { RotateHardware(HardwareNow(clock, now)); }
      assert HostValue() == host == refreshed.host;
      assert HwValue() == refreshed.hw;
      ExpirePending(now);
      ExpireEarlyTx(now);
      assert HostValue() == refreshed.host && HwValue() == refreshed.hw;
    }

    /** What a snapshot of the present state says, computed the way the program does. */
    method Measure(now: int) returns (load: BusLoad)
      requires Valid()
      ensures load == Report(Value(), now)
    {
      var host := Total(slots);
      var hw := Total(hwSlots);
      var denom := WINDOW;
      if started.None? { return BusLoad(0.0, WINDOW, rates, 0); }
      var age := now - started.value;
      if clock.initialized {
        var hardwareAgeUS := HardwareNow(clock, now) - clock.firstUS;
        if hardwareAgeUS >= WINDOW_US {
          age := WINDOW;
        } else if hardwareAgeUS * 1000 > age {
          age := hardwareAgeUS * 1000;
        }
      }
      if age > 0 && age < WINDOW { denom := age; }
      var share := (host.occupiedNs + hw.occupiedNs) as real / denom as real;
      if share > 1.0 { share := 1.0; }
      return BusLoad(share, denom, rates, host.frames + hw.frames);
    }

    method Snapshot(now: int) returns (load: BusLoad)
      requires Valid()
      modifies this, slots, hwSlots
      ensures Valid() && Value() == SnapshotState(old(Value()), now)
      ensures load == if Reports(old(Value())) then Report(Value(), now) else BusLoad(0.0, 0, Rates(0, 0), 0)
    {
      if !configured || rates.nominal == 0 { return BusLoad(0.0, 0, Rates(0, 0), 0); }
      Refresh(now);
      load := Measure(now);
    }
  }
}
