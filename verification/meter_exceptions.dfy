/** Runs of the meter that count a frame twice, again after it has left, or no more although it is
    young: a transmission recorded on the window's right edge, an echo that comes after its
    transmission has left the host window, and an echo that the hardware window refuses. */
module MeterExceptions {
  import opened Basics
  import opened HostWindow
  import opened Clock
  import opened MeterSpec
  import opened MeterConservation
  import opened MeterProperties
  import opened MeterSnapshot
  import Can
  import Occupancy

  /** A snapshot sets the origin, one transmission is recorded, a snapshot follows. */
  function Before(frame: Can.Frame, key: nat, at: int, later: int): seq<Op> {
    [Look(0), Record(frame, key, at), Look(later)]
  }

  /** And a timestamped echo arrives at once. */
  function WithEcho(frame: Can.Frame, echo: Can.Frame, key: nat, at: int, later: int): seq<Op> {
    Before(frame, key, at, later) + [Watch(echo, key, later, 0, 0)]
  }

  const Opened: Window := Window(Some(0), NoSlots())

  // ---------- the meter before the echo ----------

  predicate Empty(m: Meter) {
    && m.configured && m.host.window == Opened && m.host.started.Some?
    && m.pending == [] && m.early == [] && m.hw == HwFresh
  }

  predicate OnePending(m: Meter, w: Window, key: nat, at: int, occupiedNs: int) {
    && m.configured && m.host.window == w && m.host.started.Some? && m.early == [] && m.hw == HwFresh
    && m.pending == [Pending(key, at, occupiedNs, false, 0)]
  }

  lemma RunSnoc(nominal: nat, data: nat, ops: seq<Op>, op: Op)
    ensures Run(nominal, data, ops + [op]) == Step(Run(nominal, data, ops), op)
  {
    assert (ops + [op])[..|ops|] == ops;
  }

  lemma AfterLook(nominal: nat, data: nat)
    ensures Empty(Run(nominal, data, [Look(0)]))
  {
    RunSnoc(nominal, data, [], Look(0));
    assert [] + [Look(0)] == [Look(0)];
  }

  lemma AfterRecord(m: Meter, frame: Can.Frame, key: nat, at: int)
    requires Empty(m) && 0 < m.rates.nominal < Occupancy.MAX_BITRATE && |m.host.log| == 0
    ensures var occupied := ModelOccupancy(m, frame);
            && occupied > 0
            && OnePending(RecordTx(m, frame, key, at), AddDuration(Opened, occupied, at), key, at, occupied)
  {
    Occupancy.OccupancyIsPositive(frame, m.rates.nominal, m.rates.data);
  }

  lemma ExpireOne(p: Pending, now: int)
    requires now - p.at <= PENDING_ECHO_TTL
    ensures Expire([p], now) == [p]
  {
    assert [p][..0] == [];
  }

  lemma AfterSecondLook(m: Meter, w: Window, key: nat, at: int, occupiedNs: int, later: int)
    requires OnePending(m, w, key, at, occupiedNs) && w.origin.Some? && later - at <= PENDING_ECHO_TTL
    requires m.rates.nominal > 0
    ensures OnePending(SnapshotState(m, later), Rotate(w, later), key, at, occupiedNs)
  {
    ExpireOne(m.pending[0], later);
  }

  lemma AfterTwo(nominal: nat, data: nat, frame: Can.Frame, key: nat, at: int) returns (occupiedNs: int, m: Meter)
    requires nominal < Occupancy.MAX_BITRATE
    ensures m == Run(nominal, data, [Look(0)] + [Record(frame, key, at)])
    ensures occupiedNs > 0 && 0 < m.rates.nominal < Occupancy.MAX_BITRATE
    ensures OnePending(m, AddDuration(Opened, occupiedNs, at), key, at, occupiedNs)
    ensures AddDuration(Opened, occupiedNs, at).origin.Some?
  {
    var m1 := Run(nominal, data, [Look(0)]);
    AfterLook(nominal, data);
    RunSane(nominal, data, [Look(0)]);
    FirstLogEmpty(nominal, data);
    occupiedNs := ModelOccupancy(m1, frame);
    AfterRecord(m1, frame, key, at);
    RunSnoc(nominal, data, [Look(0)], Record(frame, key, at));
    m := Run(nominal, data, [Look(0)] + [Record(frame, key, at)]);
    RunSane(nominal, data, [Look(0)] + [Record(frame, key, at)]);
  }

  lemma BeforeEcho(nominal: nat, data: nat, frame: Can.Frame, key: nat, at: int, later: int)
    returns (occupiedNs: int, m: Meter)
    requires nominal < Occupancy.MAX_BITRATE && later - at <= PENDING_ECHO_TTL
    ensures m == Run(nominal, data, Before(frame, key, at, later))
    ensures occupiedNs > 0 && 0 < m.rates.nominal < Occupancy.MAX_BITRATE
    ensures OnePending(m, Rotate(AddDuration(Opened, occupiedNs, at), later), key, at, occupiedNs)
  {
    var two := [Look(0)] + [Record(frame, key, at)];
    var m2;
    occupiedNs, m2 := AfterTwo(nominal, data, frame, key, at);
    AfterSecondLook(m2, AddDuration(Opened, occupiedNs, at), key, at, occupiedNs, later);
    RunSnoc(nominal, data, two, Look(later));
    assert two + [Look(later)] == Before(frame, key, at, later);
    m := SnapshotState(m2, later);
  }

  lemma FirstLogEmpty(nominal: nat, data: nat)
    ensures Run(nominal, data, [Look(0)]).host.log == []
  {
    RunSnoc(nominal, data, [], Look(0));
    assert [] + [Look(0)] == [Look(0)];
  }

  // ---------- the echo ----------

  lemma FirstHardwareFrame(hw: Hw, rawUS: nat, now: int, wrapUS: nat, occupiedNs: nat)
    requires occupiedNs > 0 && !hw.clock.initialized && hw.window.originUS == 0
    ensures Sum(AddHardware(hw, rawUS, now, wrapUS, occupiedNs).window.slots)
            == Plus(Sum(hw.window.slots), Slot(occupiedNs, 1))
  {
    var (stamped, atUS) := Stamped(hw, rawUS, now, wrapUS);
    assert stamped.window == HwWindow(rawUS, hw.window.slots) && atUS == rawUS;
    PutAddsOne(stamped, rawUS, occupiedNs);
  }

  /** A configured meter with one pending transmission. */
  predicate Alone(m: Meter, key: nat, at: int, occupiedNs: int) {
    && m.configured && 0 < m.rates.nominal < Occupancy.MAX_BITRATE
    && m.pending == [Pending(key, at, occupiedNs, false, 0)]
  }

  /** An echo in time relocates its transmission. */
  lemma EchoRelocatesIt(m: Meter, key: nat, at: int, occupiedNs: int, echo: Can.Frame, now: int)
    returns (observed: nat, r: Meter)
    requires Alone(m, key, at, occupiedNs) && now - at <= PENDING_ECHO_TTL
    requires echo.direction.Transmit? && echo.timestampUS > 0
    ensures r == Step(m, Watch(echo, key, now, 0, 0)) && observed > 0
    ensures r.host.window == RemoveHost(m.host.window, at, occupiedNs)
    ensures r.hw == AddHardware(m.hw, echo.timestampUS, now, 0, observed)
  {
    var p := m.pending[0];
    ExpireOne(p, now);
    assert Find([p], key, true, now) == 0;
    Occupancy.OccupancyIsPositive(echo, m.rates.nominal, m.rates.data);
    observed := ObservedOccupancy(m, echo, 0);
    r := Step(m, Watch(echo, key, now, 0, 0));
  }

  lemma FreshHardwareCounts(rawUS: nat, now: int, occupiedNs: int)
    requires occupiedNs > 0
    ensures Sum(HwFresh.window.slots) == EMPTY
    ensures Sum(AddHardware(HwFresh, rawUS, now, 0, occupiedNs).window.slots) == Slot(occupiedNs, 1)
  {
    NoSlotsSum();
    FirstHardwareFrame(HwFresh, rawUS, now, 0, occupiedNs);
  }

  /** What a meter counts with a fresh hardware window, and with one frame in it. */
  lemma CountedWith(m: Meter, w: Window, hw: Hw)
    requires m.host.window == w && m.hw == hw && Sum(hw.window.slots).frames <= 1
    ensures Sum(hw.window.slots) == EMPTY ==> Counted(m) == Sum(w.slots)
    ensures Counted(m).frames == Sum(w.slots).frames + Sum(hw.window.slots).frames
  {
  }

  /** The echo goes into the hardware window; in the host window it removes what the removal finds. */
  lemma EchoCounts(m: Meter, w: Window, key: nat, at: int, occupiedNs: int, echo: Can.Frame, now: int)
    returns (r: Meter)
    requires OnePending(m, w, key, at, occupiedNs) && 0 < m.rates.nominal < Occupancy.MAX_BITRATE
    requires now - at <= PENDING_ECHO_TTL && echo.direction.Transmit? && echo.timestampUS != 0
    ensures Counted(m) == Sum(w.slots) && r == Step(m, Watch(echo, key, now, 0, 0))
    ensures Counted(r).frames == Sum(RemoveHost(w, at, occupiedNs).slots).frames + 1
  {
    var observed;
    observed, r := EchoRelocatesIt(m, key, at, occupiedNs, echo, now);
    FreshHardwareCounts(echo.timestampUS, now, observed);
    CountedWith(m, w, HwFresh);
    CountedWith(r, RemoveHost(w, at, occupiedNs), AddHardware(HwFresh, echo.timestampUS, now, 0, observed));
  }

  /** What such a run counts before and after the echo, in terms of the host window alone. */
  lemma EchoRun(nominal: nat, data: nat, frame: Can.Frame, echo: Can.Frame, key: nat, at: int, later: int)
    returns (occupiedNs: int)
    requires nominal < Occupancy.MAX_BITRATE && later - at <= PENDING_ECHO_TTL
    requires echo.direction.Transmit? && echo.timestampUS != 0
    ensures occupiedNs > 0
    ensures var w := Rotate(AddDuration(Opened, occupiedNs, at), later);
            && Counted(Run(nominal, data, Before(frame, key, at, later))) == Sum(w.slots)
            && Counted(Run(nominal, data, WithEcho(frame, echo, key, at, later))).frames
               == Sum(RemoveHost(w, at, occupiedNs).slots).frames + 1
  {
    var m;
    occupiedNs, m := BeforeEcho(nominal, data, frame, key, at, later);
    var r := EchoCounts(m, Rotate(AddDuration(Opened, occupiedNs, at), later), key, at, occupiedNs, echo, later);
    RunSnoc(nominal, data, Before(frame, key, at, later), Watch(echo, key, later, 0, 0));
  }

  lemma HandedSnoc(ops: seq<Op>, op: Op)
    ensures Handed(ops + [op])
            == Handed(ops) + if op.Record? || (op.Watch? && op.frame.direction.Receive?) then 1 else 0
  {
    assert (ops + [op])[..|ops|] == ops;
  }

  lemma HandsInOne(frame: Can.Frame, echo: Can.Frame, key: nat, at: int, later: int)
    requires echo.direction.Transmit?
    ensures Handed(Before(frame, key, at, later)) == Handed(WithEcho(frame, echo, key, at, later)) == 1
  {
    var a, b, c := Look(0), Record(frame, key, at), Look(later);
    HandedSnoc([], a);
    HandedSnoc([] + [a], b);
    HandedSnoc([] + [a] + [b], c);
    HandedSnoc(Before(frame, key, at, later), Watch(echo, key, later, 0, 0));
    assert Before(frame, key, at, later) == [] + [a] + [b] + [c];
  }

  /** Only the record can lie on the right edge. */
  lemma InsideIff(nominal: nat, data: nat, frame: Can.Frame, echo: Can.Frame, key: nat, at: int, later: int)
    ensures AllInside(nominal, data, WithEcho(frame, echo, key, at, later))
            <==> Inside(Run(nominal, data, [Look(0)]), at)
  {
    var ops, watch := Before(frame, key, at, later), Watch(echo, key, later, 0, 0);
    var two := [Look(0), Record(frame, key, at)];
    assert (ops + [watch])[..3] == ops && ops[..2] == two && two[..1] == [Look(0)] && [Look(0)][..0] == [];
    assert AllInside(nominal, data, []);
    assert AllInside(nominal, data, [Look(0)]);
    assert AllInside(nominal, data, two) <==> Inside(Run(nominal, data, [Look(0)]), at);
    assert AllInside(nominal, data, ops) <==> AllInside(nominal, data, two);
  }

  // ---------- the right edge ----------

  lemma EdgeSlots(occupiedNs: int)
    requires occupiedNs > 0
    ensures Rotate(AddDuration(Opened, occupiedNs, WINDOW), WINDOW + 1).slots
            == NoSlots()[COUNT - 2 := Plus(NoSlots()[COUNT - 2], Slot(occupiedNs, 1))]
  {
    assert ShiftFor(WINDOW + 1) == 1;
  }

  lemma SumOfOne(s: seq<Slot>, i: nat, x: Slot, t: seq<Slot>)
    requires i < |s| && Sum(s) == EMPTY && t == s[i := Plus(s[i], x)]
    ensures Sum(t) == x
  {
    SumUpdate(s, i, x);
  }

  lemma EdgeSum(occupiedNs: int)
    requires occupiedNs > 0
    ensures Sum(Rotate(AddDuration(Opened, occupiedNs, WINDOW), WINDOW + 1).slots) == Slot(occupiedNs, 1)
  {
    EdgeSlots(occupiedNs);
    NoSlotsSum();
    SumOfOne(NoSlots(), COUNT - 2, Slot(occupiedNs, 1),
             Rotate(AddDuration(Opened, occupiedNs, WINDOW), WINDOW + 1).slots);
  }

  lemma EdgeOrigin(occupiedNs: int)
    ensures AddDuration(Opened, occupiedNs, WINDOW).origin == Some(0)
  {
  }

  /** A transmission recorded exactly one window after the origin goes into the last bucket; one
      nanosecond later its removal looks in the next bucket and finds nothing. */
  lemma RightEdgeRemovalMisses(occupiedNs: int)
    requires occupiedNs > 0
    ensures var later := Rotate(AddDuration(Opened, occupiedNs, WINDOW), WINDOW + 1);
            Sum(later.slots) == Slot(occupiedNs, 1) && RemoveHost(later, WINDOW, occupiedNs) == later
  {
    EdgeSum(occupiedNs);
    EdgeOrigin(occupiedNs);
    EdgeMisses(AddDuration(Opened, occupiedNs, WINDOW), occupiedNs, WINDOW);
  }

  /** That run hands in one transmission and ends with two counted, whatever the frame. */
  lemma RightEdgeCountsTwice(nominal: nat, data: nat, frame: Can.Frame, echo: Can.Frame, key: nat)
    requires nominal < Occupancy.MAX_BITRATE && echo.direction.Transmit? && echo.timestampUS != 0
    ensures var ops := WithEcho(frame, echo, key, WINDOW, WINDOW + 1);
            && Ordered(ops) && Handed(ops) == 1 && !AllInside(nominal, data, ops)
            && Counted(Run(nominal, data, ops)).frames == 2
  {
    var occupied := EchoRun(nominal, data, frame, echo, key, WINDOW, WINDOW + 1);
    RightEdgeRemovalMisses(occupied);
    HandsInOne(frame, echo, key, WINDOW, WINDOW + 1);
    InsideIff(nominal, data, frame, echo, key, WINDOW, WINDOW + 1);
    AfterLook(nominal, data);
  }

  // ---------- the late echo ----------

  const LATE := WINDOW + 1

  /** A transmission at the end of the first bucket has left the window while it is still pending. */
  lemma FirstBucketDropped(occupiedNs: int)
    requires occupiedNs > 0
    ensures var later := Rotate(AddDuration(Opened, occupiedNs, SLOT - 1), LATE);
            Sum(later.slots) == EMPTY && RemoveHost(later, SLOT - 1, occupiedNs) == later
  {
    var later := Rotate(AddDuration(Opened, occupiedNs, SLOT - 1), LATE);
    assert ShiftFor(LATE) == 1;
    assert later.slots == NoSlots();
    NoSlotsSum();
  }

  /** With every step inside the right edge: nothing is counted any more, and the echo brings the
      transmission back, so an echo can add a frame. */
  lemma LateEchoCountsAgain(nominal: nat, data: nat, frame: Can.Frame, echo: Can.Frame, key: nat)
    requires nominal < Occupancy.MAX_BITRATE && echo.direction.Transmit? && echo.timestampUS != 0
    ensures var ops := WithEcho(frame, echo, key, SLOT - 1, LATE);
            && Ordered(ops) && AllInside(nominal, data, ops)
            && Counted(Run(nominal, data, Before(frame, key, SLOT - 1, LATE))).frames == 0
            && Counted(Run(nominal, data, ops)).frames == 1
  {
    var occupied := EchoRun(nominal, data, frame, echo, key, SLOT - 1, LATE);
    FirstBucketDropped(occupied);
    InsideIff(nominal, data, frame, echo, key, SLOT - 1, LATE);
    AfterLook(nominal, data);
  }
  // ---------- the lost transmission ----------

  /** A transmission, a received frame, and the transmission's echo, whose device time is older. */
  function LostEcho(frame: Can.Frame, rx: Can.Frame, echo: Can.Frame, key: nat, other: nat,
                    t0: int, t1: int, t2: int): seq<Op>
  {
    [Record(frame, key, t0), Watch(rx, other, t1, 0, 0), Watch(echo, key, t2, 0, 0)]
  }

  /** The window of a device that has sent one frame. */
  predicate OneStamped(hw: Hw, us: nat, now: int, occupiedNs: int) {
    && hw.window == HwWindow(us, NoSlots()[0 := Slot(occupiedNs, 1)])
    && hw.clock == HwClock(true, us, us, us, now) && hw.past == Past(0, 0)
  }

  predicate Recording(m: Meter, key: nat, at: int, occupiedNs: int, hw: Hw) {
    && m.configured && 0 < m.rates.nominal < Occupancy.MAX_BITRATE && m.early == [] && m.hw == hw
    && m.host.window == AddDuration(Fresh, occupiedNs, at) && m.host.started.Some?
    && m.pending == [Pending(key, at, occupiedNs, false, 0)]
  }

  lemma AfterFirstRecord(nominal: nat, data: nat, frame: Can.Frame, key: nat, at: int)
    returns (occupiedNs: int, r: Meter)
    requires nominal < Occupancy.MAX_BITRATE
    ensures r == Step(Configure(nominal, data), Record(frame, key, at))
    ensures occupiedNs > 0 && Recording(r, key, at, occupiedNs, HwFresh)
  {
    var m := Configure(nominal, data);
    Occupancy.OccupancyIsPositive(frame, m.rates.nominal, m.rates.data);
    occupiedNs, r := ModelOccupancy(m, frame), RecordTx(m, frame, key, at);
  }

  lemma FirstStamped(us: nat, now: int, occupiedNs: nat)
    requires us > 0 && occupiedNs > 0
    ensures OneStamped(AddHardware(HwFresh, us, now, 0, occupiedNs), us, now, occupiedNs)
  {
  }

  /** The other frame is received. */
  lemma AfterReceived(m: Meter, key: nat, at: int, occupiedNs: int, rx: Can.Frame, other: nat, now: int)
    returns (hw: Hw, rxNs: int, r: Meter)
    requires Recording(m, key, at, occupiedNs, HwFresh) && now - at <= PENDING_ECHO_TTL
    requires rx.direction.Receive? && rx.timestampUS > 0 && other != key
    ensures rxNs > 0 && OneStamped(hw, rx.timestampUS, now, rxNs)
    ensures r == Step(m, Watch(rx, other, now, 0, 0)) && Recording(r, key, at, occupiedNs, hw)
  {
    ExpireOne(m.pending[0], now);
    Occupancy.OccupancyIsPositive(rx, m.rates.nominal, m.rates.data);
    rxNs := ObservedOccupancy(m, rx, 0);
    hw := AddHardware(HwFresh, rx.timestampUS, now, 0, rxNs);
    FirstStamped(rx.timestampUS, now, rxNs);
    assert [m.pending[0]][1..] == [];
    assert Find(m.pending, other, false, now) == 1;
    r := Step(m, Watch(rx, other, now, 0, 0));
  }

  /** The echo's device time is unwrapped to itself and found too old. */
  lemma EchoRefused(hw: Hw, us: nat, t1: int, rxNs: int, echoUS: nat, now: int, occupiedNs: nat)
    requires OneStamped(hw, us, t1, rxNs) && 0 < echoUS < us <= echoUS + WINDOW_US && 0 <= now - t1 <= WINDOW
    requires occupiedNs > 0
    ensures !Accepted(hw, echoUS, now, 0, occupiedNs)
    ensures var r := AddHardware(hw, echoUS, now, 0, occupiedNs); r.window == hw.window && r.past == Past(0, 1)
  {
    assert hw.window.slots[0].frames != 0;
    var stamp := HardwareTimestamp(hw.clock, echoUS, now, 0);
    assert stamp == Stamp(hw.clock, echoUS, false);
    var rotated := RotateHw(hw, HardwareNow(hw.clock, now));
    assert rotated.window == hw.window;
  }

  lemma OnlyFrameRemoved(at: int, occupiedNs: int)
    requires occupiedNs > 0
    ensures RemoveHost(AddDuration(Fresh, occupiedNs, at), at, occupiedNs).slots == NoSlots()
  {
  }

  lemma OneStampedSum(hw: Hw, us: nat, now: int, occupiedNs: int)
    requires OneStamped(hw, us, now, occupiedNs)
    ensures Sum(hw.window.slots) == Slot(occupiedNs, 1)
  {
    NoSlotsSum();
    assert Plus(NoSlots()[0], Slot(occupiedNs, 1)) == Slot(occupiedNs, 1);
    SumOfOne(NoSlots(), 0, Slot(occupiedNs, 1), hw.window.slots);
  }

  /** The echo takes the transmission out of the host window and puts it nowhere. */
  lemma AfterLostEcho(m: Meter, key: nat, at: int, occupiedNs: int, hw: Hw, us: nat, t1: int, rxNs: int,
                      echo: Can.Frame, now: int) returns (r: Meter)
    requires Recording(m, key, at, occupiedNs, hw) && occupiedNs > 0 && OneStamped(hw, us, t1, rxNs)
    requires now - at <= PENDING_ECHO_TTL && 0 <= now - t1 <= WINDOW
    requires echo.direction.Transmit? && 0 < echo.timestampUS < us <= echo.timestampUS + WINDOW_US
    ensures r == Step(m, Watch(echo, key, now, 0, 0)) && Counted(r) == Slot(rxNs, 1) && r.hw.past.refused == 1
  {
    var observed;
    observed, r := EchoRelocatesIt(m, key, at, occupiedNs, echo, now);
    EchoRefused(hw, us, t1, rxNs, echo.timestampUS, now, observed);
    OnlyFrameRemoved(at, occupiedNs);
    NoSlotsSum();
    OneStampedSum(hw, us, t1, rxNs);
  }

  lemma HandsInTwo(frame: Can.Frame, rx: Can.Frame, echo: Can.Frame, key: nat, other: nat, t0: int, t1: int, t2: int)
    requires rx.direction.Receive? && echo.direction.Transmit?
    ensures Handed(LostEcho(frame, rx, echo, key, other, t0, t1, t2)) == 2
  {
    var a, b, c := Record(frame, key, t0), Watch(rx, other, t1, 0, 0), Watch(echo, key, t2, 0, 0);
    HandedSnoc([], a);
    HandedSnoc([] + [a], b);
    HandedSnoc([] + [a] + [b], c);
    assert [] + [a] + [b] + [c] == LostEcho(frame, rx, echo, key, other, t0, t1, t2);
  }

  lemma LostEchoInside(nominal: nat, data: nat, frame: Can.Frame, rx: Can.Frame, echo: Can.Frame,
                       key: nat, other: nat, t0: int, t1: int, t2: int)
    ensures AllInside(nominal, data, LostEcho(frame, rx, echo, key, other, t0, t1, t2))
  {
    var ops := LostEcho(frame, rx, echo, key, other, t0, t1, t2);
    assert ops[..2][..1] == [Record(frame, key, t0)] && [Record(frame, key, t0)][..0] == [];
    assert Inside(Configure(nominal, data), t0);
    assert AllInside(nominal, data, []);
    assert AllInside(nominal, data, [Record(frame, key, t0)]);
    assert AllInside(nominal, data, ops[..2]);
  }

  /** The three states of that run. */
  lemma LostEchoStates(nominal: nat, data: nat, frame: Can.Frame, rx: Can.Frame, echo: Can.Frame,
                       key: nat, other: nat, t0: int, t1: int, t2: int)
    returns (rxNs: int, m1: Meter, m2: Meter, m3: Meter)
    requires nominal < Occupancy.MAX_BITRATE && t0 <= t1 <= t2 <= t0 + WINDOW && key != other
    requires rx.direction.Receive? && echo.direction.Transmit?
    requires 0 < echo.timestampUS < rx.timestampUS <= echo.timestampUS + WINDOW_US
    ensures m1 == Step(Configure(nominal, data), Record(frame, key, t0))
    ensures m2 == Step(m1, Watch(rx, other, t1, 0, 0)) && m3 == Step(m2, Watch(echo, key, t2, 0, 0))
    ensures Counted(m3) == Slot(rxNs, 1) && m3.hw.past.refused == 1
  {
    var occupied, hw;
    occupied, m1 := AfterFirstRecord(nominal, data, frame, key, t0);
    hw, rxNs, m2 := AfterReceived(m1, key, t0, occupied, rx, other, t1);
    m3 := AfterLostEcho(m2, key, t0, occupied, hw, rx.timestampUS, t1, rxNs, echo, t2);
  }

  lemma RunTwo(nominal: nat, data: nat, a: Op, b: Op, ops: seq<Op>)
    requires ops == [a] + [b]
    ensures Run(nominal, data, ops) == Step(Step(Configure(nominal, data), a), b)
  {
    RunSnoc(nominal, data, [], a);
    assert [] + [a] == [a];
    RunSnoc(nominal, data, [a], b);
  }

  lemma RunThree(nominal: nat, data: nat, a: Op, b: Op, c: Op, ops: seq<Op>, m1: Meter, m2: Meter, m3: Meter)
    requires ops == [a] + [b] + [c]
    requires m1 == Step(Configure(nominal, data), a) && m2 == Step(m1, b) && m3 == Step(m2, c)
    ensures Run(nominal, data, ops) == m3
  {
    var two := [a] + [b];
    RunTwo(nominal, data, a, b, two);
    RunSnoc(nominal, data, two, c);
  }

  lemma LostEchoRun(nominal: nat, data: nat, frame: Can.Frame, rx: Can.Frame, echo: Can.Frame,
                    key: nat, other: nat, t0: int, t1: int, t2: int, ops: seq<Op>) returns (m: Meter)
    requires nominal < Occupancy.MAX_BITRATE && t0 <= t1 <= t2 <= t0 + WINDOW && key != other
    requires rx.direction.Receive? && echo.direction.Transmit?
    requires 0 < echo.timestampUS < rx.timestampUS <= echo.timestampUS + WINDOW_US
    requires ops == [Record(frame, key, t0)] + [Watch(rx, other, t1, 0, 0)] + [Watch(echo, key, t2, 0, 0)]
    ensures m == Run(nominal, data, ops) && Counted(m).frames == 1 && m.hw.past.refused == 1
  {
    var rxNs, m1, m2, m3 := LostEchoStates(nominal, data, frame, rx, echo, key, other, t0, t1, t2);
    m := m3;
    RunThree(nominal, data, Record(frame, key, t0), Watch(rx, other, t1, 0, 0), Watch(echo, key, t2, 0, 0),
             ops, m1, m2, m3);
  }

  /** With every step in order and inside the right edge, for all frames and times: of a transmission and
      a received frame only one is counted after the echo of the transmission, because the echo is
      refused for being older than the received frame, however young both are. */
  lemma RefusedEchoLosesFrame(nominal: nat, data: nat, frame: Can.Frame, rx: Can.Frame, echo: Can.Frame,
                              key: nat, other: nat, t0: int, t1: int, t2: int)
    requires nominal < Occupancy.MAX_BITRATE && t0 <= t1 <= t2 <= t0 + WINDOW && key != other
    requires rx.direction.Receive? && echo.direction.Transmit?
    requires 0 < echo.timestampUS < rx.timestampUS <= echo.timestampUS + WINDOW_US
    ensures var ops := LostEcho(frame, rx, echo, key, other, t0, t1, t2);
            && Ordered(ops) && AllInside(nominal, data, ops) && Handed(ops) == 2
            && Counted(Run(nominal, data, ops)).frames == 1 && Run(nominal, data, ops).hw.past.refused == 1
  {
    var m := LostEchoRun(nominal, data, frame, rx, echo, key, other, t0, t1, t2,
                         LostEcho(frame, rx, echo, key, other, t0, t1, t2));
    HandsInTwo(frame, rx, echo, key, other, t0, t1, t2);
    LostEchoInside(nominal, data, frame, rx, echo, key, other, t0, t1, t2);
  }
}
