/** What single operations of the bus-load meter promise. */
module MeterProperties {
  import opened Basics
  import opened HostWindow
  import opened Clock
  import opened MeterSpec
  import opened HardwareWindow
  import opened MeterConservation
  import Can
  import Occupancy

  /** A frame goes into the hardware bucket that covers its device time. */
  lemma HardwarePlacement(w: HwWindow, atUS: nat)
    ensures var r := RotateHardware(w, atUS);
            r.originUS <= atUS ==>
              var edge := r.originUS + HwIndex(r, atUS) * SLOT_US;
              edge <= atUS <= edge + SLOT_US
  {
  }

  lemma PutAddsOne(hw: Hw, atUS: nat, occupiedNs: int)
    requires !TooOld(hw.window, atUS)
    ensures Sum(PutHardware(hw, atUS, occupiedNs).window.slots) == Plus(Sum(hw.window.slots), Slot(occupiedNs, 1))
  {
    SumUpdate(hw.window.slots, HwIndex(Opened(hw, atUS).window, atUS), Slot(occupiedNs, 1));
  }

  lemma RemoveTakesOne(w: Window, log: seq<Rec>, now: int, k: nat)
    requires Tracks(w, log, now) && k < |log| && log[k].moves == 0 && log[k].at < log[k].place + SLOT
    ensures Sum(RemoveHost(w, log[k].at, log[k].occupiedNs).slots)
            == if log[k].place < w.origin.value then Sum(w.slots)
               else Minus(Sum(w.slots), Slot(log[k].occupiedNs, 1))
  {
    var r := log[k];
    assert r in log && Placed(r, w.origin.value, now);
    if r.place >= w.origin.value {
      RemovalIndex(r, w, now);
      HeldAtLeast(log, k);
      SumUpdate(w.slots, SlotIndex(w, r.at), Slot(-r.occupiedNs, -1));
    }
  }

  lemma AddHardwareAddsOne(hw: Hw, rawUS: nat, now: int, wrapUS: nat, occupiedNs: nat)
    ensures Sum(AddHardware(hw, rawUS, now, wrapUS, occupiedNs).window.slots)
            == Plus(Sum(RotatedHw(hw, rawUS, now, wrapUS, occupiedNs).window.slots),
                    if Accepted(hw, rawUS, now, wrapUS, occupiedNs) then Slot(occupiedNs, 1) else EMPTY)
  {
    if Accepted(hw, rawUS, now, wrapUS, occupiedNs) {
      var (stamped, atUS) := Stamped(hw, rawUS, now, wrapUS);
      PutAddsOne(stamped, atUS, occupiedNs);
    }
  }

  /** The hardware half after the rotations that go with an insertion; a frame of no duration causes none. */
  function RotatedHw(hw: Hw, timestampUS: nat, now: int, wrapUS: nat, occupiedNs: nat): Hw {
    if occupiedNs == 0 then hw else Stamped(hw, timestampUS, now, wrapUS).0
  }

  /** The transmission is still in its host bucket. */
  predicate HeldInHost(h: Host, p: Pending)
    requires p.ticket < |h.log| && h.window.origin.Some?
  {
    h.log[p.ticket].place >= h.window.origin.value
  }

  /** A relocation takes exactly the pending frame out of the host window, unless it has aged out
      already, and puts exactly one frame with the observed occupancy into the hardware window,
      unless that frame is older than the window or of no duration: then it is counted nowhere. */
  lemma RelocationMovesOne(m: Meter, now: int, p: Pending, timestampUS: nat, at: int, wrapUS: nat, occupiedNs: nat)
    requires HostOk(m.host, now) && Backed(p, m.host.log) && m.host.log[p.ticket].moves == 0 && timestampUS != 0
    ensures m.host.window.origin.Some?
    ensures var r := Relocate(m, p, timestampUS, at, wrapUS, occupiedNs);
            && Sum(r.host.window.slots)
               == Plus(Sum(m.host.window.slots), if HeldInHost(m.host, p) then Slot(-p.occupiedNs, -1) else EMPTY)
            && Sum(r.hw.window.slots)
               == Plus(Sum(RotatedHw(m.hw, timestampUS, at, wrapUS, occupiedNs).window.slots),
                       if Accepted(m.hw, timestampUS, at, wrapUS, occupiedNs) then Slot(occupiedNs, 1) else EMPTY)
  {
    RemoveTakesOne(m.host.window, m.host.log, now, p.ticket);
    AddHardwareAddsOne(m.hw, timestampUS, at, wrapUS, occupiedNs);
  }

  /** Both windows after the rotations that go with an insertion, before anything is moved. */
  function RotatedCount(m: Meter, timestampUS: nat, now: int, wrapUS: nat, occupiedNs: nat): Slot {
    Plus(Sum(m.host.window.slots), Sum(RotatedHw(m.hw, timestampUS, now, wrapUS, occupiedNs).window.slots))
  }

  /** What a relocation takes out and what it puts in. */
  function Taken(p: Pending, held: bool): Slot { if held then Slot(-p.occupiedNs, -1) else EMPTY }

  function PutIn(occupiedNs: nat, accepted: bool): Slot { if accepted then Slot(occupiedNs, 1) else EMPTY }

  lemma RelocationCounts(m: Meter, now: int, p: Pending, timestampUS: nat, wrapUS: nat, occupiedNs: nat)
    requires HostOk(m.host, now) && Backed(p, m.host.log) && m.host.log[p.ticket].moves == 0 && timestampUS != 0
    ensures m.host.window.origin.Some?
    ensures Counted(Relocate(m, p, timestampUS, now, wrapUS, occupiedNs))
            == Plus(RotatedCount(m, timestampUS, now, wrapUS, occupiedNs),
                    Plus(Taken(p, HeldInHost(m.host, p)),
                         PutIn(occupiedNs, Accepted(m.hw, timestampUS, now, wrapUS, occupiedNs))))
  {
    RelocationMovesOne(m, now, p, timestampUS, now, wrapUS, occupiedNs);
  }

  /** What a device-timed echo of a transmission does, after the rotations: the transmission is taken out
      if its bucket is still in the host window, and put in if the hardware window accepts it. So the
      number of counted frames is unchanged if and only if both happen or neither; otherwise the
      transmission is lost, or comes back. */
  lemma EchoMovesOne(m: Meter, now: int, frame: Can.Frame, key: nat, wrapUS: nat, occupiedNs: nat)
    requires Inv(m, now) && frame.timestampUS != 0 && Find(m.pending, key, true, now) < |m.pending|
    ensures var p := m.pending[Find(m.pending, key, true, now)];
            && Backed(p, m.host.log) && m.host.window.origin.Some?
            && var held := HeldInHost(m.host, p);
               var accepted := Accepted(m.hw, frame.timestampUS, now, wrapUS, occupiedNs);
               var before := RotatedCount(m, frame.timestampUS, now, wrapUS, occupiedNs);
               var after := Counted(ObserveTx(m, frame, key, now, wrapUS, occupiedNs));
               && after == Plus(before, Plus(Taken(p, held), PutIn(occupiedNs, accepted)))
               && (after.frames == before.frames <==> held == accepted)
  {
    var i := Find(m.pending, key, true, now);
    FindFirst(m.pending, key, true, now);
    var p := m.pending[i];
    assert p in m.pending && Backed(p, m.host.log);
    var c := m.(pending := m.pending[i := p.(confirmed := true)]);
    RelocationCounts(c, now, p, frame.timestampUS, wrapUS, occupiedNs);
    EchoRelocates(m, frame, key, now, wrapUS, occupiedNs, i);
    FramesKept(RotatedCount(m, frame.timestampUS, now, wrapUS, occupiedNs), p, HeldInHost(m.host, p), occupiedNs,
               Accepted(m.hw, frame.timestampUS, now, wrapUS, occupiedNs));
  }

  lemma EchoRelocates(m: Meter, frame: Can.Frame, key: nat, now: int, wrapUS: nat, occupiedNs: nat, i: nat)
    requires i == Find(m.pending, key, true, now) < |m.pending| && !m.pending[i].confirmed
    ensures var p := m.pending[i];
            ObserveTx(m, frame, key, now, wrapUS, occupiedNs)
            == Relocate(m.(pending := m.pending[i := p.(confirmed := true)]), p,
                        frame.timestampUS, now, wrapUS, occupiedNs)
  {
  }

  lemma FramesKept(before: Slot, p: Pending, held: bool, occupiedNs: nat, accepted: bool)
    ensures Plus(before, Plus(Taken(p, held), PutIn(occupiedNs, accepted))).frames == before.frames
            <==> held == accepted
  {
  }

  /** An echo that matches nothing counts nothing: it waits. */
  lemma StrayEchoWaits(m: Meter, now: int, frame: Can.Frame, key: nat, wrapUS: nat, occupiedNs: nat)
    requires forall p :: p in m.pending ==> p.confirmed || p.key != key
    ensures var r := ObserveTx(m, frame, key, now, wrapUS, occupiedNs);
            && r.host == m.host && r.hw == m.hw && r.pending == m.pending
            && (frame.timestampUS != 0 ==> r.early != [] && r.early[|r.early| - 1].frame == frame)
  {
    FindFirst(m.pending, key, true, now);
    assert forall p :: p in m.pending ==> !Matches(p, key, true, now);
  }

  // ---------- which observations count ----------

  /** The search finds the first pending transmission that matches, if there is one. */
  lemma {:induction false} FindFirst(ps: seq<Pending>, key: nat, unconfirmedOnly: bool, now: int)
    ensures var i := Find(ps, key, unconfirmedOnly, now);
            && (forall j :: 0 <= j < i ==> !Matches(ps[j], key, unconfirmedOnly, now))
            && if i < |ps| then Matches(ps[i], key, unconfirmedOnly, now)
               else forall p :: p in ps ==> !Matches(p, key, unconfirmedOnly, now)
  {
    if ps != [] && !Matches(ps[0], key, unconfirmedOnly, now) {
      FindFirst(ps[1..], key, unconfirmedOnly, now);
      var i := Find(ps, key, unconfirmedOnly, now);
      forall j | 0 <= j < i ensures !Matches(ps[j], key, unconfirmedOnly, now) {
        if j > 0 { assert ps[j] == ps[1..][j - 1]; }
      }
      assert forall p :: p in ps ==> p == ps[0] || p in ps[1..];
    }
  }

  /** Expiry keeps exactly the transmissions no older than the echo limit. */
  lemma {:induction false} ExpireExact(ps: seq<Pending>, now: int, p: Pending)
    ensures p in Expire(ps, now) <==> p in ps && now - p.at <= 1_000_000_000
  {
    if ps != [] {
      ExpireExact(ps[..|ps| - 1], now, p);
      assert p in ps <==> p in ps[..|ps| - 1] || p == ps[|ps| - 1];
    }
  }

  lemma AddAddsOne(w: Window, log: seq<Rec>, now: int, occupiedNs: int)
    requires Tracks(w, log, now) && occupiedNs > 0
    ensures Sum(AddDuration(w, occupiedNs, now).slots) == Plus(Sum(Rotate(w, now).slots), Slot(occupiedNs, 1))
  {
    RotateTracks(w, log, now, now);
    var r := Rotate(w, now);
    IndexInside(r, now);
    SumUpdate(r.slots, SlotIndex(r, now), Slot(occupiedNs, 1));
  }

  /** A received frame without device time counts as one more frame exactly when no transmission
      with its key was recorded within the last 100 ms; otherwise it is that transmission's echo,
      nothing is counted, and the transmission stops waiting. */
  lemma LookalikeCountsOnce(m: Meter, now: int, frame: Can.Frame, key: nat, wrapUS: nat, occupiedNs: nat)
    requires Inv(m, now) && frame.timestampUS == 0 && occupiedNs > 0
    ensures var r := ObserveRx(m, frame, key, now, wrapUS, occupiedNs);
            if exists p :: p in m.pending && p.key == key && now - p.at <= 100_000_000
            then r.host == m.host && r.hw == m.hw && |r.pending| == |m.pending| - 1
            else r.hw == m.hw && r.pending == m.pending
                 && Sum(r.host.window.slots)
                    == Plus(Sum(Rotate(m.host.window, now).slots), Slot(occupiedNs, 1))
  {
    FindFirst(m.pending, key, false, now);
    var i := Find(m.pending, key, false, now);
    if i < |m.pending| {
      var p := m.pending[i];
      assert p in m.pending && p.key == key && now - p.at <= PENDING_TX_TTL;
    } else {
      assert forall p :: p in m.pending && p.key == key && now - p.at <= PENDING_TX_TTL ==>
               Matches(p, key, false, now);
      AddAddsOne(m.host.window, m.host.log, now, occupiedNs);
    }
  }

  // ---------- the lists stay short ----------

  lemma {:induction false} ExpireEarlyShrinks(es: seq<Echo>, now: int)
    ensures |ExpireEarly(es, now)| <= |es|
  {
    if es != [] { ExpireEarlyShrinks(es[..|es| - 1], now); }
  }

  predicate Short(m: Meter) { |m.pending| <= 256 && |m.early| <= 256 }

  lemma {:induction false} ExpireShrinks(ps: seq<Pending>, now: int)
    ensures |Expire(ps, now)| <= |ps|
  {
    if ps != [] { ExpireShrinks(ps[..|ps| - 1], now); }
  }

  lemma RecordTxStaysShort(m: Meter, frame: Can.Frame, key: nat, now: int)
    requires Short(m)
    ensures Short(RecordTx(m, frame, key, now))
  {
    ExpireShrinks(m.pending, now);
    ExpireEarlyShrinks(m.early, now);
  }

  lemma ObserveStaysShort(m: Meter, frame: Can.Frame, key: nat, totalBitCount: nat, now: int, wrapUS: nat)
    requires Short(m)
    ensures Short(Observe(m, frame, key, totalBitCount, now, wrapUS))
  {
    ExpireShrinks(m.pending, now);
    ExpireEarlyShrinks(m.early, now);
  }

  lemma StepStaysShort(m: Meter, op: Op)
    requires Short(m)
    ensures Short(Step(m, op))
  {
    match op
    case Record(frame, key, now) => RecordTxStaysShort(m, frame, key, now);
    case Watch(frame, key, now, totalBitCount, wrapUS) =>
      ObserveStaysShort(m, frame, key, totalBitCount, now, wrapUS);
    case Look(now) =>
      ExpireShrinks(m.pending, now);
      ExpireEarlyShrinks(m.early, now);
  }

  /** However many frames are recorded and observed, at most 256 transmissions and 256 early echoes wait. */
  lemma {:induction false} ListsStayShort(nominal: nat, data: nat, ops: seq<Op>)
    ensures Short(Run(nominal, data, ops))
  {
    if ops != [] {
      ListsStayShort(nominal, data, ops[..|ops| - 1]);
      StepStaysShort(Run(nominal, data, ops[..|ops| - 1]), ops[|ops| - 1]);
    }
  }
}
