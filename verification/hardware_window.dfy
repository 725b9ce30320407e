/** The hardware window of the meter against a record of device times
    (driver/internal/backend/busload.go:263-353): in nanoseconds it is a rolling window like the
    host's, opened at the first frame. */
module HardwareWindow {
  import opened Basics
  import opened HostWindow
  import opened Clock
  import opened MeterSpec

  /** The same buckets with the origin in nanoseconds. */
  function InNs(w: HwWindow): Window { Window(Some(w.originUS * 1000), w.slots) }

  predicate NeverMoved(log: seq<Rec>) { forall r :: r in log ==> r.moves == 0 }

  /** Not opened yet and empty, or every bucket holds exactly the records placed in it. */
  predicate HwTracks(hw: Hw) {
    if hw.window.originUS == 0 then hw.window.slots == NoSlots() && hw.log == []
    else
      && Tracks(InNs(hw.window), hw.log, hw.seenUS * 1000) && NeverMoved(hw.log)
      && hw.seenUS <= hw.window.originUS + WINDOW_US
  }

  /** Frames are recorded once the device clock runs, and none after its latest time. */
  predicate Recent(hw: Hw) { forall r :: r in hw.log ==> hw.clock.initialized && r.at <= hw.clock.lastUS * 1000 }

  predicate HwInv(hw: Hw) {
    HwTracks(hw) && Positive(hw.clock) && hw.clock.firstUS <= hw.clock.lastUS && Recent(hw)
  }

  // ---------- rotation ----------

  /** Microseconds or nanoseconds, the same buckets are dropped. */
  lemma SameShift(elapsedUS: nat)
    requires elapsedUS > WINDOW_US
    ensures ShiftFor(elapsedUS * 1000) == HwShiftFor(elapsedUS)
  {
  }

  lemma RotateInNs(w: HwWindow, atUS: nat)
    requires w.originUS != 0
    ensures InNs(RotateHardware(w, atUS)) == Rotate(InNs(w), atUS * 1000)
  {
    if atUS > w.originUS && atUS - w.originUS > WINDOW_US {
      SameShift(atUS - w.originUS);
      assert atUS * 1000 - w.originUS * 1000 == (atUS - w.originUS) * 1000;
    }
  }

  lemma OpenTracks(atUS: nat)
    ensures Tracks(Window(Some(atUS * 1000), NoSlots()), [], atUS * 1000)
  {
  }

  lemma RotateHwTracks(hw: Hw, atUS: nat)
    requires HwTracks(hw) && atUS >= 1
    ensures var r := RotateHw(hw, atUS);
            HwTracks(r) && r.log == hw.log && r.window.originUS != 0 && atUS <= r.seenUS
  {
    if hw.window.originUS == 0 {
      OpenTracks(atUS);
    } else if atUS >= hw.seenUS {
      RotateInNs(hw.window, atUS);
      RotateTracks(InNs(hw.window), hw.log, hw.seenUS * 1000, atUS * 1000);
    }
  }

  // ---------- a frame goes in ----------

  lemma {:induction false} HeldNoFrames(log: seq<Rec>, place: int)
    requires NeverMoved(log) && Held(log, place).frames == 0
    ensures Held(log, place) == EMPTY
  {
    if log != [] {
      assert log[|log| - 1] in log;
      HeldFramesNonNegative(log[..|log| - 1], place);
      HeldNoFrames(log[..|log| - 1], place);
    }
  }

  lemma {:induction false} HeldFramesNonNegative(log: seq<Rec>, place: int)
    ensures Held(log, place).frames >= 0
  {
    if log != [] { HeldFramesNonNegative(log[..|log| - 1], place); }
  }

  /** A window without frames is empty, so opening it elsewhere loses nothing. */
  lemma NoFramesIsEmpty(hw: Hw)
    requires HwTracks(hw) && !HasFrames(hw.window.slots)
    ensures hw.window.slots == NoSlots()
  {
    if hw.window.originUS != 0 {
      forall i | 0 <= i < COUNT ensures hw.window.slots[i] == EMPTY {
        assert hw.window.slots[i].frames == 0;
        assert InNs(hw.window).slots[i] == Held(hw.log, hw.window.originUS * 1000 + i * SLOT);
        HeldNoFrames(hw.log, hw.window.originUS * 1000 + i * SLOT);
      }
    }
  }

  lemma OpenedTracks(hw: Hw, atUS: nat)
    requires HwTracks(hw) && hw.window.originUS != 0 && 1 <= atUS <= hw.seenUS && !TooOld(hw.window, atUS)
    ensures var r := Opened(hw, atUS);
            HwTracks(r) && 0 < r.window.originUS <= atUS <= r.seenUS && r.window.slots == hw.window.slots
  {
    if atUS < hw.window.originUS {
      NoFramesIsEmpty(hw);
      OpenTracks(atUS);
    }
  }

  /** The index is the same in both units. */
  lemma SameIndex(w: HwWindow, atUS: nat)
    requires w.originUS <= atUS <= w.originUS + WINDOW_US
    ensures SlotIndex(InNs(w), atUS * 1000) == HwIndex(w, atUS)
  {
    assert atUS * 1000 - w.originUS * 1000 == (atUS - w.originUS) * 1000;
  }

  lemma PutHardwareTracks(hw: Hw, atUS: nat, occupiedNs: int)
    requires HwTracks(hw) && hw.window.originUS != 0 && 1 <= atUS <= hw.seenUS && occupiedNs > 0
    ensures var r := PutHardware(hw, atUS, occupiedNs);
            HwTracks(r) && r.window.originUS != 0 && r.clock == hw.clock
  {
    if !TooOld(hw.window, atUS) {
      OpenedTracks(hw, atUS);
      var r := Opened(hw, atUS);
      SameIndex(r.window, atUS);
      PutTracks(InNs(r.window), r.log, r.seenUS * 1000, occupiedNs, atUS * 1000);
      assert InNs(PutHardware(hw, atUS, occupiedNs).window) == Put(InNs(r.window), occupiedNs, atUS * 1000);
      assert HwRec(r.window, atUS, occupiedNs) == PutRec(InNs(r.window), occupiedNs, atUS * 1000);
    }
  }

  lemma StampedTracks(hw: Hw, rawUS: nat, now: int, wrapUS: nat)
    requires HwInv(hw) && rawUS >= 1
    ensures var (stamped, atUS) := Stamped(hw, rawUS, now, wrapUS);
            && HwInv(stamped) && stamped.window.originUS != 0 && 1 <= atUS <= stamped.seenUS
            && stamped.clock.initialized && atUS <= stamped.clock.lastUS
  {
    StampPositive(hw.clock, rawUS, now, wrapUS);
    StampGrows(hw.clock, rawUS, now, wrapUS);
    StampKeepsOrder(hw.clock, rawUS, now, wrapUS, now);
    var w := if hw.clock.initialized then RotateHw(hw, HardwareNow(hw.clock, now)) else hw;
    if hw.clock.initialized { RotateHwTracks(hw, HardwareNow(hw.clock, now)); }
    var stamp := HardwareTimestamp(hw.clock, rawUS, now, wrapUS);
    var kept := if stamp.restarted then Restarted(hw) else w;
    RotateHwTracks(kept.(clock := stamp.clock), stamp.atUS);
  }

  /** Whatever the device reports, short of a time of 0, an insertion keeps the buckets true to the
      record. */
  lemma AddHardwareTracks(hw: Hw, rawUS: nat, now: int, wrapUS: nat, occupiedNs: nat)
    requires HwInv(hw) && rawUS >= 1
    ensures HwInv(AddHardware(hw, rawUS, now, wrapUS, occupiedNs))
  {
    if occupiedNs > 0 {
      StampedTracks(hw, rawUS, now, wrapUS);
      var (stamped, atUS) := Stamped(hw, rawUS, now, wrapUS);
      PutHardwareTracks(stamped, atUS, occupiedNs);
      PutRecent(stamped, atUS, occupiedNs);
    }
  }

  lemma PutRecent(hw: Hw, atUS: nat, occupiedNs: int)
    requires Recent(hw) && hw.clock.initialized && atUS <= hw.clock.lastUS
    ensures Recent(PutHardware(hw, atUS, occupiedNs))
  {
  }

  // ---------- what the window then shows ----------

  /** What the record gains: an accepted frame, at its device time and in the bucket that covers it;
      earlier frames stay unless the clock restarted or no bucket held one any more. */
  lemma AcceptedIsRecorded(hw: Hw, rawUS: nat, now: int, wrapUS: nat, occupiedNs: nat)
    requires HwInv(hw) && rawUS >= 1
    ensures var r := AddHardware(hw, rawUS, now, wrapUS, occupiedNs);
            var stamp, (stamped, _) := HardwareTimestamp(hw.clock, rawUS, now, wrapUS), Stamped(hw, rawUS, now, wrapUS);
            if Accepted(hw, rawUS, now, wrapUS, occupiedNs) then
              && r.log != []
              && (var rec := r.log[|r.log| - 1];
                  && rec.at == stamp.atUS * 1000 && rec.occupiedNs == occupiedNs && rec.moves == 0
                  && r.window.originUS * 1000 <= rec.place <= rec.at <= rec.place + SLOT)
              && (r.log[..|r.log| - 1] == hw.log
                  || (r.log[..|r.log| - 1] == [] && (stamp.restarted || !HasFrames(stamped.window.slots))))
            else r.log == if stamp.restarted && occupiedNs > 0 then [] else hw.log
  {
    StampedTracks(hw, rawUS, now, wrapUS);
    var (stamped, atUS) := Stamped(hw, rawUS, now, wrapUS);
    if Accepted(hw, rawUS, now, wrapUS, occupiedNs) {
      OpenedTracks(stamped, atUS);
    }
  }

  /** The bucket sum lies between the recorded frames of the last window less one bucket and those of the
      last window, in device time, counted back from the latest one the window was rotated to. */
  predicate OneBucketError(hw: Hw) {
    var seen := hw.seenUS * 1000;
    && AtMost(TotalWithin(hw.log, seen - WINDOW + SLOT, seen), Sum(hw.window.slots))
    && AtMost(Sum(hw.window.slots), TotalWithin(hw.log, seen - WINDOW, seen))
  }

  lemma HardwareWithinOneBucket(hw: Hw)
    requires HwInv(hw) && hw.window.originUS != 0
    ensures OneBucketError(hw)
  {
    SumWithinOneBucket(InNs(hw.window), hw.log, hw.seenUS * 1000);
  }

  /** Refused is exactly a frame older than the origin while some bucket holds a frame, however little
      older it is. */
  lemma OlderFrameRefused(hw: Hw, atUS: nat, occupiedNs: nat)
    requires HwInv(hw)
    ensures PutHardware(hw, atUS, occupiedNs) == Refused(hw)
            <==> atUS < hw.window.originUS && HasFrames(hw.window.slots)
  {
    if !TooOld(hw.window, atUS) {
      var r := PutHardware(hw, atUS, occupiedNs);
      assert r.past.refused == hw.past.refused;
    }
  }

  // ---------- every frame is accounted for ----------

  /** Frames handed to the hardware window. */
  function HandedHw(hw: Hw): nat { |hw.log| + hw.past.forgotten + hw.past.refused }

  lemma StampedAccounts(hw: Hw, rawUS: nat, now: int, wrapUS: nat)
    ensures HandedHw(Stamped(hw, rawUS, now, wrapUS).0) == HandedHw(hw)
  {
  }

  lemma AddHardwareAccounts(hw: Hw, rawUS: nat, now: int, wrapUS: nat, occupiedNs: nat)
    ensures HandedHw(AddHardware(hw, rawUS, now, wrapUS, occupiedNs)) == HandedHw(hw) + 1
  {
    if occupiedNs > 0 { StampedAccounts(hw, rawUS, now, wrapUS); }
  }
}
