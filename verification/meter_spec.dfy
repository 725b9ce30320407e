/** The bus-load meter as functions on values (driver/internal/backend/busload.go). The records of
    frames (both logs, `seenUS`, `past`, `tally` and the tickets) are the model's own; the program
    keeps only the buckets. */
module MeterSpec {
  import opened Basics
  import opened HostWindow
  import opened Clock
  import Can
  import Occupancy

  const SLOT_US := 1000
  const PENDING_TX_TTL := 100_000_000
  const PENDING_ECHO_TTL := 1_000_000_000
  const MAX_PENDING := 256

  datatype Rates = Rates(nominal: nat, data: nat)

  /** `ticket` says which entry of the record the pending transmission stands for. */
  datatype Pending = Pending(key: nat, at: int, occupiedNs: int, confirmed: bool, ticket: nat)

  datatype Echo = Echo(frame: Can.Frame, key: nat, at: int, wrapUS: nat, occupiedNs: nat)

  datatype HwWindow = HwWindow(originUS: nat, slots: Slots)

  /** The host half: the window, the start of measurement and the record. */
  datatype Host = Host(window: Window, started: Option<int>, log: seq<Rec>)

  /** Frames handed to the hardware window and not in its record: those forgotten when the clock
      restarted or the window was opened anew, and those refused. */
  datatype Past = Past(forgotten: nat, refused: nat)

  /** The hardware half. `log` records the frames put in since the window was last opened, with
      device times in nanoseconds, and `seenUS` the latest device time it was rotated to. */
  datatype Hw = Hw(window: HwWindow, clock: HwClock, log: seq<Rec>, seenUS: nat, past: Past)

  /** Frames received: with a device time, taken for the echo of a transmission, and of no duration. */
  datatype Tally = Tally(stamped: nat, echoes: nat, weightless: nat)

  datatype Meter = Meter(configured: bool, rates: Rates, host: Host, hw: Hw,
                         pending: seq<Pending>, early: seq<Echo>, tally: Tally)

  const NoTally := Tally(0, 0, 0)
  const HwFresh := Hw(HwWindow(0, NoSlots()), HwReset, [], 0, Past(0, 0))

  const Unconfigured := Meter(false, Rates(0, 0), Host(Fresh, None, []), HwFresh, [], [], NoTally)

  function Configure(nominal: nat, data: nat): Meter {
    var rates := Rates(if nominal == 0 then 500_000 else nominal, if data == 0 then 2_000_000 else data);
    Meter(true, rates, Host(Fresh, None, []), HwFresh, [], [], NoTally)
  }

  // ---------- host half ----------

  function RotateHost(h: Host, now: int): Host {
    h.(window := Rotate(h.window, now), started := if h.window.origin.None? then Some(now) else h.started)
  }

  function AddHost(h: Host, occupiedNs: int, now: int): Host {
    if occupiedNs <= 0 then h
    else RotateHost(h, now).(window := AddDuration(h.window, occupiedNs, now),
                             log := h.log + [NewRec(h.window, occupiedNs, now)])
  }

  function MarkMoved(log: seq<Rec>, ticket: nat): seq<Rec> {
    if ticket < |log| then Moved(log, ticket) else log
  }

  function RemoveFromHost(h: Host, p: Pending): Host {
    RotateHost(h, p.at).(window := RemoveHost(h.window, p.at, p.occupiedNs), log := MarkMoved(h.log, p.ticket))
  }

  // ---------- hardware half ----------

  /** ShiftFor in microseconds. */
  function HwShiftFor(elapsedUS: int): int {
    (elapsedUS - WINDOW_US + SLOT_US - 1) / SLOT_US
  }

  function RotateHardware(w: HwWindow, atUS: nat): HwWindow {
    if w.originUS == 0 then w.(originUS := atUS)
    else if atUS <= w.originUS || atUS - w.originUS <= WINDOW_US then w
    else
      var shift := HwShiftFor(atUS - w.originUS);
      if shift >= COUNT then HwWindow(atUS, NoSlots())
      else HwWindow(w.originUS + shift * SLOT_US, Shifted(w.slots, shift))
  }

  function RotateHw(hw: Hw, atUS: nat): Hw {
    hw.(window := RotateHardware(hw.window, atUS),
        seenUS := if hw.window.originUS == 0 then atUS else Max(hw.seenUS, atUS))
  }

  predicate HasFrames(s: seq<Slot>) { exists i :: 0 <= i < |s| && s[i].frames != 0 }

  /** Whether a frame older than the origin is dropped rather than moving the origin back. */
  predicate TooOld(w: HwWindow, atUS: nat) { atUS < w.originUS && HasFrames(w.slots) }

  function HwIndex(w: HwWindow, atUS: nat): nat
    requires w.originUS <= atUS
  {
    Min((atUS - w.originUS) / SLOT_US, COUNT - 1)
  }

  function Forget(past: Past, log: seq<Rec>): Past { past.(forgotten := past.forgotten + |log|) }

  function Refused(hw: Hw): Hw { hw.(past := hw.past.(refused := hw.past.refused + 1)) }

  /** An empty window whose origin lies after the frame is opened anew at the frame. */
  function Opened(hw: Hw, atUS: nat): Hw {
    if atUS < hw.window.originUS then
      hw.(window := hw.window.(originUS := atUS), log := [], seenUS := atUS, past := Forget(hw.past, hw.log))
    else hw
  }

  /** The hardware half after the device's clock has restarted. */
  function Restarted(hw: Hw): Hw { HwFresh.(past := Forget(hw.past, hw.log)) }

  function HwRec(w: HwWindow, atUS: nat, occupiedNs: int): Rec
    requires w.originUS <= atUS
  {
    Rec(atUS * 1000, (w.originUS + HwIndex(w, atUS) * SLOT_US) * 1000, occupiedNs, 0)
  }

  function PutHardware(hw: Hw, atUS: nat, occupiedNs: int): Hw {
    if TooOld(hw.window, atUS) then Refused(hw)
    else
      var r := Opened(hw, atUS);
      var idx := HwIndex(r.window, atUS);
      r.(window := r.window.(slots := r.window.slots[idx := Plus(r.window.slots[idx], Slot(occupiedNs, 1))]),
         log := r.log + [HwRec(r.window, atUS, occupiedNs)])
  }

  /** The hardware half after the device time of a new frame is known, and that time. */
  function Stamped(hw: Hw, rawUS: nat, now: int, wrapUS: nat): (Hw, nat) {
    var w := if hw.clock.initialized then RotateHw(hw, HardwareNow(hw.clock, now)) else hw;
    var stamp := HardwareTimestamp(hw.clock, rawUS, now, wrapUS);
    var kept := if stamp.restarted then Restarted(hw) else w;
    (RotateHw(kept.(clock := stamp.clock), stamp.atUS), stamp.atUS)
  }

  function AddHardware(hw: Hw, rawUS: nat, now: int, wrapUS: nat, occupiedNs: int): Hw {
    if occupiedNs == 0 then Refused(hw)
    else
      var (stamped, atUS) := Stamped(hw, rawUS, now, wrapUS);
      PutHardware(stamped, atUS, occupiedNs)
  }

  /** Whether that frame reached a bucket. */
  predicate Accepted(hw: Hw, rawUS: nat, now: int, wrapUS: nat, occupiedNs: int) {
    var (stamped, atUS) := Stamped(hw, rawUS, now, wrapUS);
    occupiedNs != 0 && !TooOld(stamped.window, atUS)
  }

  /** Measurement starts with the first frame that reaches a bucket. */
  function StartedBy(started: Option<int>, accepted: bool, now: int): Option<int> {
    if accepted && started.None? then Some(now) else started
  }

  function AddHardwareLocked(m: Meter, rawUS: nat, now: int, wrapUS: nat, occupiedNs: int): Meter {
    m.(hw := AddHardware(m.hw, rawUS, now, wrapUS, occupiedNs),
       host := m.host.(started := StartedBy(m.host.started, Accepted(m.hw, rawUS, now, wrapUS, occupiedNs), now)))
  }

  // ---------- pending transmissions and early echoes ----------

  function Expire(ps: seq<Pending>, now: int): seq<Pending> {
    if ps == [] then []
    else
      var rest, p := Expire(ps[..|ps| - 1], now), ps[|ps| - 1];
      if now - p.at <= PENDING_ECHO_TTL then rest + [p] else rest
  }

  function ExpireEarly(es: seq<Echo>, now: int): seq<Echo> {
    if es == [] then []
    else
      var rest, e := ExpireEarly(es[..|es| - 1], now), es[|es| - 1];
      if now - e.at <= PENDING_TX_TTL then rest + [e] else rest
  }

  predicate Matches(p: Pending, key: nat, unconfirmedOnly: bool, now: int) {
    && p.key == key
    && (unconfirmedOnly ==> !p.confirmed)
    && (unconfirmedOnly || now - p.at <= PENDING_TX_TTL)
  }

  /** The first match, or the length of the list. */
  function Find(ps: seq<Pending>, key: nat, unconfirmedOnly: bool, now: int): (i: nat)
    ensures i <= |ps|
  {
    if ps == [] then 0
    else if Matches(ps[0], key, unconfirmedOnly, now) then 0
    else 1 + Find(ps[1..], key, unconfirmedOnly, now)
  }

  function FindEarly(es: seq<Echo>, key: nat): (i: nat)
    ensures i <= |es|
  {
    if es == [] || es[0].key == key then 0 else 1 + FindEarly(es[1..], key)
  }

  function Without<T>(s: seq<T>, i: nat): seq<T>
    requires i < |s|
  {
    s[..i] + s[i + 1..]
  }

  function DropOldest<T>(s: seq<T>): seq<T> {
    if |s| >= MAX_PENDING then s[1..] else s
  }

  // ---------- operations ----------

  function Relocate(m: Meter, p: Pending, timestampUS: nat, now: int, wrapUS: nat, occupiedNs: int): Meter {
    if timestampUS == 0 then m
    else AddHardwareLocked(m.(host := RemoveFromHost(m.host, p)), timestampUS, now, wrapUS, occupiedNs)
  }

  function ModelOccupancy(m: Meter, frame: Can.Frame): nat {
    Occupancy.FrameOccupancy(frame, m.rates.nominal, m.rates.data)
  }

  /** Up to the search for an early echo. */
  function Recorded(m: Meter, frame: Can.Frame, key: nat, now: int): Meter {
    var occupied := ModelOccupancy(m, frame);
    m.(host := AddHost(m.host, occupied, now),
       pending := DropOldest(Expire(m.pending, now)) + [Pending(key, now, occupied, false, |m.host.log|)],
       early := ExpireEarly(m.early, now))
  }

  /** The newest transmission is confirmed by the early echo `i`. */
  function Adopted(r: Meter, i: nat): Meter
    requires r.pending != [] && i < |r.early|
  {
    var last := |r.pending| - 1;
    r.(early := Without(r.early, i), pending := r.pending[last := r.pending[last].(confirmed := true)])
  }

  /** The newest transmission takes the first early echo with its key. */
  function AdoptEcho(r: Meter, key: nat): Meter
    requires r.pending != []
  {
    var i := FindEarly(r.early, key);
    if i == |r.early| then r
    else
      var echo, last := r.early[i], |r.pending| - 1;
      Relocate(Adopted(r, i), Adopted(r, i).pending[last],
               echo.frame.timestampUS, echo.at, echo.wrapUS, echo.occupiedNs)
  }

  function RecordTx(m: Meter, frame: Can.Frame, key: nat, now: int): Meter {
    if !m.configured then m else AdoptEcho(Recorded(m, frame, key, now), key)
  }

  function ObservedOccupancy(m: Meter, frame: Can.Frame, totalBitCount: nat): nat {
    if totalBitCount == 0 then ModelOccupancy(m, frame)
    else Occupancy.FrameOccupancyFromBitCount(frame, totalBitCount + 3, m.rates.nominal, m.rates.data)
  }

  function Confirm(m: Meter, i: nat, frame: Can.Frame, now: int, wrapUS: nat, occupiedNs: nat): Meter
    requires i < |m.pending|
  {
    var p := m.pending[i];
    if p.confirmed then m
    else Relocate(m.(pending := m.pending[i := p.(confirmed := true)]), p, frame.timestampUS, now, wrapUS, occupiedNs)
  }

  function Consume(m: Meter, i: nat, frame: Can.Frame, now: int, wrapUS: nat, occupiedNs: nat): Meter
    requires i < |m.pending|
  {
    var p := m.pending[i];
    var without := m.(pending := Without(m.pending, i), tally := m.tally.(echoes := m.tally.echoes + 1));
    if p.confirmed then without else Relocate(without, p, frame.timestampUS, now, wrapUS, occupiedNs)
  }

  function ObserveTx(m: Meter, frame: Can.Frame, key: nat, now: int, wrapUS: nat, occupiedNs: nat): Meter {
    var i := Find(m.pending, key, true, now);
    if i < |m.pending| then Confirm(m, i, frame, now, wrapUS, occupiedNs)
    else if frame.timestampUS == 0 then m
    else m.(early := DropOldest(m.early) + [Echo(frame, key, now, wrapUS, occupiedNs)])
  }

  function ObserveRx(m: Meter, frame: Can.Frame, key: nat, now: int, wrapUS: nat, occupiedNs: nat): Meter {
    var i := Find(m.pending, key, false, now);
    if i < |m.pending| then Consume(m, i, frame, now, wrapUS, occupiedNs)
    else if frame.timestampUS != 0 then
      AddHardwareLocked(m, frame.timestampUS, now, wrapUS, occupiedNs)
      .(tally := m.tally.(stamped := m.tally.stamped + 1))
    else if occupiedNs == 0 then m.(tally := m.tally.(weightless := m.tally.weightless + 1))
    else m.(host := AddHost(m.host, occupiedNs, now))
  }

  function Expired(m: Meter, now: int): Meter {
    m.(pending := Expire(m.pending, now), early := ExpireEarly(m.early, now))
  }

  function Observe(m: Meter, frame: Can.Frame, key: nat, totalBitCount: nat, now: int, wrapUS: nat): Meter {
    if !m.configured then m
    else
      var occupied := ObservedOccupancy(m, frame, totalBitCount);
      if frame.direction.Transmit? then ObserveTx(Expired(m, now), frame, key, now, wrapUS, occupied)
      else ObserveRx(Expired(m, now), frame, key, now, wrapUS, occupied)
  }

  /** Whether a snapshot has anything to report. */
  predicate Reports(m: Meter) { m.configured && m.rates.nominal != 0 }

  function SnapshotState(m: Meter, now: int): Meter {
    if !Reports(m) then m
    else
      var hw := if m.hw.clock.initialized then RotateHw(m.hw, HardwareNow(m.hw.clock, now)) else m.hw;
      Expired(m.(host := RotateHost(m.host, now), hw := hw), now)
  }

  /** Both windows together. */
  function Counted(m: Meter): Slot { Plus(Sum(m.host.window.slots), Sum(m.hw.window.slots)) }

  /** The averaging time: the window, or less while the measurement is younger than that. */
  function Age(m: Meter, now: int): int
    requires m.host.started.Some?
  {
    var age := now - m.host.started.value;
    if !m.hw.clock.initialized then age
    else
      var hwAgeUS := HardwareNow(m.hw.clock, now) - m.hw.clock.firstUS;
      if hwAgeUS >= WINDOW_US then WINDOW else Max(age, hwAgeUS * 1000)
  }

  function Denominator(m: Meter, now: int): int {
    if m.host.started.None? then WINDOW
    else if 0 < Age(m, now) < WINDOW then Age(m, now) else WINDOW
  }

  datatype BusLoad = BusLoad(load: real, window: int, rates: Rates, frameCount: int)

  /** What a snapshot reports, from the state after rotation and expiry. */
  function Report(m: Meter, now: int): BusLoad {
    if m.host.started.None? then BusLoad(0.0, WINDOW, m.rates, 0)
    else
      var load := Counted(m).occupiedNs as real / Denominator(m, now) as real;
      BusLoad(if load > 1.0 then 1.0 else load, Denominator(m, now), m.rates, Counted(m).frames)
  }
}
