/** Conservation in the bus-load meter: every frame handed in is counted in one window, or has left its
    window with its bucket, or was refused or forgotten by the hardware window, or was taken for an
    echo, and never two of these. */
module MeterConservation {
  import opened Basics
  import opened HostWindow
  import opened Clock
  import opened MeterSpec
  import opened HardwareWindow
  import Can
  import Occupancy

  // ---------- the invariant ----------

  /** What a pending transmission is: a record placed strictly before its bucket's right edge and,
      until it is confirmed, not yet moved. */
  predicate Backed(p: Pending, log: seq<Rec>) {
    && p.ticket < |log|
    && log[p.ticket].at == p.at && log[p.ticket].occupiedNs == p.occupiedNs
    && p.at < log[p.ticket].place + SLOT
    && (!p.confirmed ==> log[p.ticket].moves == 0)
  }

  predicate Increasing(ps: seq<Pending>) {
    forall i, j :: 0 <= i < j < |ps| ==> ps[i].ticket < ps[j].ticket
  }

  predicate PendingOk(ps: seq<Pending>, log: seq<Rec>) {
    (forall p :: p in ps ==> Backed(p, log)) && Increasing(ps)
  }

  predicate MovedOnce(log: seq<Rec>) { forall r :: r in log ==> r.moves <= 1 }

  function MovedCount(log: seq<Rec>): nat {
    if log == [] then 0
    else MovedCount(log[..|log| - 1]) + if log[|log| - 1].moves > 0 then 1 else 0
  }

  predicate HostOk(h: Host, now: int) {
    && Tracks(h.window, h.log, now) && MovedOnce(h.log)
    && (h.window.origin.Some? ==> h.started.Some?)
  }

  predicate HwOk(hw: Hw, handed: nat) { HwInv(hw) && HandedHw(hw) == handed }

  predicate Inv(m: Meter, now: int) {
    && HostOk(m.host, now)
    && PendingOk(m.pending, m.host.log)
    && HwOk(m.hw, MovedCount(m.host.log) + m.tally.stamped)
    && (m.configured ==> 0 < m.rates.nominal < Occupancy.MAX_BITRATE)
  }

  // ---------- hardware window ----------

  /** A frame with a device time is recorded, or counted as refused. */
  lemma AddHardwareKeeps(hw: Hw, rawUS: nat, now: int, wrapUS: nat, occupiedNs: nat, handed: nat)
    requires HwOk(hw, handed) && rawUS != 0
    ensures HwOk(AddHardware(hw, rawUS, now, wrapUS, occupiedNs), handed + 1)
  {
    AddHardwareTracks(hw, rawUS, now, wrapUS, occupiedNs);
    AddHardwareAccounts(hw, rawUS, now, wrapUS, occupiedNs);
  }

  // ---------- the pending list ----------

  lemma {:induction false} ExpireKeeps(ps: seq<Pending>, now: int, log: seq<Rec>)
    requires PendingOk(ps, log)
    ensures PendingOk(Expire(ps, now), log)
    ensures forall p :: p in Expire(ps, now) ==> p in ps
  {
    if ps != [] {
      ExpireKeeps(ps[..|ps| - 1], now, log);
      var rest := Expire(ps[..|ps| - 1], now);
      assert forall i :: 0 <= i < |rest| ==> rest[i] in rest;
    }
  }

  /** A longer record backs the same list, with a new last entry. */
  lemma PushKeeps(ps: seq<Pending>, log: seq<Rec>, r: Rec, p: Pending)
    requires PendingOk(ps, log) && Backed(p, log + [r]) && p.ticket == |log|
    ensures PendingOk(ps + [p], log + [r])
  {
    forall q | q in ps ensures Backed(q, log + [r]) { assert Backed(q, log); }
    forall i, j | 0 <= i < j < |ps + [p]| ensures (ps + [p])[i].ticket < (ps + [p])[j].ticket {
      assert ps[i] in ps && Backed(ps[i], log);
    }
  }

  /** Moving a record unbacks nobody else; the entry itself must be confirmed or gone. */
  lemma MoveKeeps(ps: seq<Pending>, log: seq<Rec>, ticket: nat)
    requires PendingOk(ps, log) && ticket < |log|
    requires forall p :: p in ps && p.ticket == ticket ==> p.confirmed
    ensures PendingOk(ps, Moved(log, ticket))
  {
  }

  lemma ConfirmKeeps(ps: seq<Pending>, log: seq<Rec>, i: nat)
    requires PendingOk(ps, log) && i < |ps|
    ensures PendingOk(ps[i := ps[i].(confirmed := true)], log)
    ensures forall p :: p in ps[i := ps[i].(confirmed := true)] && p.ticket == ps[i].ticket ==> p.confirmed
  {
    var qs := ps[i := ps[i].(confirmed := true)];
    assert Backed(ps[i], log);
    forall p | p in qs ensures Backed(p, log) && (p.ticket == ps[i].ticket ==> p.confirmed) {
      var j :| 0 <= j < |qs| && p == qs[j];
      if j != i { assert ps[j] in ps; }
    }
  }

  lemma RemoveKeeps(ps: seq<Pending>, log: seq<Rec>, i: nat)
    requires PendingOk(ps, log) && i < |ps|
    ensures PendingOk(Without(ps, i), log)
    ensures forall p :: p in Without(ps, i) ==> p.ticket != ps[i].ticket
  {
  }

  // ---------- the record ----------

  lemma {:induction false} MovedAddsOne(log: seq<Rec>, k: nat)
    requires k < |log| && log[k].moves == 0
    ensures MovedCount(Moved(log, k)) == MovedCount(log) + 1
  {
    var front := log[..|log| - 1];
    if k < |front| {
      MovedAddsOne(front, k);
      assert Moved(log, k)[..|log| - 1] == Moved(front, k);
    } else {
      assert Moved(log, k)[..|log| - 1] == front;
    }
  }

  lemma MovedCountAppend(log: seq<Rec>, r: Rec)
    ensures MovedCount(log + [r]) == MovedCount(log) + if r.moves > 0 then 1 else 0
  {
  }

  /** Records not moved whose bucket has been dropped. */
  function Aged(log: seq<Rec>, origin: int): nat {
    if log == [] then 0
    else
      var r := log[|log| - 1];
      Aged(log[..|log| - 1], origin) + if r.moves == 0 && r.place < origin then 1 else 0
  }

  /** Every record is still in its bucket, or dropped with it, or moved. */
  lemma {:induction false} HeldAgedOrMoved(log: seq<Rec>, origin: int)
    requires forall r :: r in log ==> r.place < origin + WINDOW
    ensures HeldBetween(log, origin, origin + WINDOW).frames + Aged(log, origin) + MovedCount(log) == |log|
  {
    if log != [] {
      assert log[|log| - 1] in log;
      HeldAgedOrMoved(log[..|log| - 1], origin);
    }
  }

  lemma {:induction false} NothingMoved(log: seq<Rec>)
    requires NeverMoved(log)
    ensures MovedCount(log) == 0
  {
    if log != [] {
      assert log[|log| - 1] in log;
      NothingMoved(log[..|log| - 1]);
    }
  }

  // ---------- relocation ----------

  lemma RotateHostKeeps(h: Host, now: int, later: int)
    requires HostOk(h, now) && (h.window.origin.Some? ==> now <= later)
    ensures HostOk(RotateHost(h, later), later)
    ensures var w := RotateHost(h, later).window;
            w.origin.Some? && w.origin.value <= later <= w.origin.value + WINDOW
  {
    RotateTracks(h.window, h.log, now, later);
  }

  lemma AddHostKeeps(h: Host, now: int, occupiedNs: int, later: int)
    requires HostOk(h, now) && now <= later
    ensures HostOk(AddHost(h, occupiedNs, later), later)
    ensures occupiedNs > 0 ==> AddHost(h, occupiedNs, later).log == h.log + [NewRec(h.window, occupiedNs, later)]
    ensures MovedCount(AddHost(h, occupiedNs, later).log) == MovedCount(h.log)
  {
    if occupiedNs > 0 {
      AddTracks(h.window, h.log, now, occupiedNs, later);
      MovedCountAppend(h.log, NewRec(h.window, occupiedNs, later));
    } else if h.window.origin.Some? {
      forall r | r in h.log ensures Placed(r, h.window.origin.value, later) {
        assert Placed(r, h.window.origin.value, now);
      }
    }
  }

  lemma RemoveFromHostKeeps(h: Host, now: int, p: Pending)
    requires HostOk(h, now) && Backed(p, h.log) && h.log[p.ticket].moves == 0
    ensures HostOk(RemoveFromHost(h, p), now)
    ensures RemoveFromHost(h, p).log == Moved(h.log, p.ticket)
  {
    RemoveTracks(h.window, h.log, now, p.ticket);
    var log := Moved(h.log, p.ticket);
    forall r | r in log ensures r.moves <= 1 {
      if r !in h.log { assert r == log[p.ticket]; }
    }
  }

  lemma RelocateKeeps(m: Meter, now: int, p: Pending, timestampUS: nat, at: int, wrapUS: nat, occupiedNs: int)
    requires Inv(m, now) && Backed(p, m.host.log) && m.host.log[p.ticket].moves == 0 && occupiedNs >= 0
    requires forall q :: q in m.pending && q.ticket == p.ticket ==> q.confirmed
    ensures Inv(Relocate(m, p, timestampUS, at, wrapUS, occupiedNs), now)
  {
    if timestampUS != 0 {
      RemoveFromHostKeeps(m.host, now, p);
      MoveKeeps(m.pending, m.host.log, p.ticket);
      MovedAddsOne(m.host.log, p.ticket);
      AddHardwareKeeps(m.hw, timestampUS, at, wrapUS, occupiedNs, MovedCount(m.host.log) + m.tally.stamped);
    }
  }

  // ---------- operations ----------

  lemma LaterKeeps(m: Meter, now: int, later: int)
    requires Inv(m, now) && now <= later
    ensures Inv(m, later)
  {
  }

  /** The new transmission lies strictly before the right edge of its bucket: the clock is not
      exactly one window past the origin. A caller can check it before recording. */
  predicate Inside(m: Meter, now: int) {
    now != Rotate(m.host.window, now).origin.value + WINDOW
  }

  lemma NewRecInside(w: Window, occupiedNs: int, now: int)
    requires var r := Rotate(w, now); r.origin.value <= now < r.origin.value + WINDOW
    ensures now < NewRec(w, occupiedNs, now).place + SLOT
  {
  }

  lemma DropKeeps(ps: seq<Pending>, log: seq<Rec>)
    requires PendingOk(ps, log)
    ensures PendingOk(DropOldest(ps), log)
  {
  }

  lemma RecordedKeeps(m: Meter, now: int, frame: Can.Frame, key: nat, later: int)
    requires Inv(m, now) && m.configured && now <= later && Inside(m, later)
    ensures var r := Recorded(m, frame, key, later);
            && Inv(r, later) && r.pending != []
            && |r.host.log| == |m.host.log| + 1
            && var p := r.pending[|r.pending| - 1];
               r.host.log[p.ticket].moves == 0 && Backed(p, r.host.log)
  {
    var occupied := ModelOccupancy(m, frame);
    Occupancy.OccupancyIsPositive(frame, m.rates.nominal, m.rates.data);
    AddHostKeeps(m.host, now, occupied, later);
    RotateHostKeeps(m.host, now, later);
    var rec := NewRec(m.host.window, occupied, later);
    NewRecInside(m.host.window, occupied, later);
    ExpireKeeps(m.pending, later, m.host.log);
    DropKeeps(Expire(m.pending, later), m.host.log);
    PushKeeps(DropOldest(Expire(m.pending, later)), m.host.log, rec,
              Pending(key, later, occupied, false, |m.host.log|));
  }

  lemma AdoptedKeeps(m: Meter, now: int, i: nat)
    requires Inv(m, now) && m.pending != [] && i < |m.early|
    ensures var r := Adopted(m, i); var p := r.pending[|r.pending| - 1];
            && Inv(r, now) && Backed(p, m.host.log)
            && forall q :: q in r.pending && q.ticket == p.ticket ==> q.confirmed
  {
    ConfirmKeeps(m.pending, m.host.log, |m.pending| - 1);
    assert m.pending[|m.pending| - 1] in m.pending;
  }

  /** Giving the newest transmission the early echo that matches it. */
  lemma AdoptKeeps(r: Meter, now: int, key: nat)
    requires Inv(r, now) && r.pending != []
    requires var p := r.pending[|r.pending| - 1]; Backed(p, r.host.log) && r.host.log[p.ticket].moves == 0
    ensures Inv(AdoptEcho(r, key), now)
  {
    var i := FindEarly(r.early, key);
    if i < |r.early| {
      var echo, q := r.early[i], Adopted(r, i);
      AdoptedKeeps(r, now, i);
      RelocateKeeps(q, now, q.pending[|q.pending| - 1],
                    echo.frame.timestampUS, echo.at, echo.wrapUS, echo.occupiedNs);
    }
  }

  lemma RecordTxKeeps(m: Meter, now: int, frame: Can.Frame, key: nat, later: int)
    requires Inv(m, now) && now <= later && Inside(m, later)
    ensures Inv(RecordTx(m, frame, key, later), later)
  {
    if !m.configured {
      LaterKeeps(m, now, later);
    } else {
      RecordedKeeps(m, now, frame, key, later);
      AdoptKeeps(Recorded(m, frame, key, later), later, key);
    }
  }

  lemma ObserveTxKeeps(m: Meter, now: int, frame: Can.Frame, key: nat, wrapUS: nat, occupiedNs: nat)
    requires Inv(m, now)
    ensures Inv(ObserveTx(m, frame, key, now, wrapUS, occupiedNs), now)
  {
    var i := Find(m.pending, key, true, now);
    if i < |m.pending| && !m.pending[i].confirmed {
      var p := m.pending[i];
      assert Backed(p, m.host.log);
      ConfirmKeeps(m.pending, m.host.log, i);
      RelocateKeeps(m.(pending := m.pending[i := p.(confirmed := true)]), now, p,
                    frame.timestampUS, now, wrapUS, occupiedNs);
    }
  }

  lemma ObserveRxKeeps(m: Meter, now: int, frame: Can.Frame, key: nat, wrapUS: nat, occupiedNs: nat)
    requires Inv(m, now)
    ensures Inv(ObserveRx(m, frame, key, now, wrapUS, occupiedNs), now)
  {
    var i := Find(m.pending, key, false, now);
    if i < |m.pending| {
      var p := m.pending[i];
      assert Backed(p, m.host.log);
      RemoveKeeps(m.pending, m.host.log, i);
      if !p.confirmed {
        RelocateKeeps(m.(pending := Without(m.pending, i), tally := m.tally.(echoes := m.tally.echoes + 1)), now,
                      p, frame.timestampUS, now, wrapUS, occupiedNs);
      }
    } else if frame.timestampUS != 0 {
      AddHardwareKeeps(m.hw, frame.timestampUS, now, wrapUS, occupiedNs, MovedCount(m.host.log) + m.tally.stamped);
    } else if occupiedNs > 0 {
      AddHostKeeps(m.host, now, occupiedNs, now);
      AppendKeeps(m.pending, m.host.log, AddHost(m.host, occupiedNs, now).log);
    }
  }

  lemma AppendKeeps(ps: seq<Pending>, log: seq<Rec>, longer: seq<Rec>)
    requires PendingOk(ps, log) && log <= longer
    ensures PendingOk(ps, longer)
  {
  }

  lemma ExpiredKeeps(m: Meter, now: int, later: int)
    requires Inv(m, now)
    ensures Inv(Expired(m, later), now)
  {
    ExpireKeeps(m.pending, later, m.host.log);
  }

  lemma ObserveKeeps(m: Meter, now: int, frame: Can.Frame, key: nat, totalBitCount: nat, later: int, wrapUS: nat)
    requires Inv(m, now) && now <= later
    ensures Inv(Observe(m, frame, key, totalBitCount, later, wrapUS), later)
  {
    LaterKeeps(m, now, later);
    ExpiredKeeps(m, later, later);
    var occupied := ObservedOccupancy(m, frame, totalBitCount);
    if frame.direction.Transmit? {
      ObserveTxKeeps(Expired(m, later), later, frame, key, wrapUS, occupied);
    } else {
      ObserveRxKeeps(Expired(m, later), later, frame, key, wrapUS, occupied);
    }
  }

  lemma SnapshotKeeps(m: Meter, now: int, later: int)
    requires Inv(m, now) && now <= later
    ensures Inv(SnapshotState(m, later), later)
  {
    if !m.configured {
      LaterKeeps(m, now, later);
    } else {
      RotateHostKeeps(m.host, now, later);
      if m.hw.clock.initialized { RotateHwTracks(m.hw, HardwareNow(m.hw.clock, later)); }
      ExpireKeeps(m.pending, later, m.host.log);
    }
  }

  // ---------- whole runs ----------

  datatype Op =
    | Record(frame: Can.Frame, key: nat, now: int)
    | Watch(frame: Can.Frame, key: nat, now: int, totalBitCount: nat, wrapUS: nat)
    | Look(now: int)

  function Step(m: Meter, op: Op): Meter {
    match op
    case Record(frame, key, now) => RecordTx(m, frame, key, now)
    case Watch(frame, key, now, totalBitCount, wrapUS) => Observe(m, frame, key, totalBitCount, now, wrapUS)
    case Look(now) => SnapshotState(m, now)
  }

  function Run(nominal: nat, data: nat, ops: seq<Op>): Meter {
    if ops == [] then Configure(nominal, data) else Step(Run(nominal, data, ops[..|ops| - 1]), ops[|ops| - 1])
  }

  predicate Ordered(ops: seq<Op>) {
    forall i :: 0 < i < |ops| ==> ops[i - 1].now <= ops[i].now
  }

  /** No transmission is recorded exactly on the right edge of the window. */
  predicate AllInside(nominal: nat, data: nat, ops: seq<Op>) {
    ops == [] ||
    var front, op := ops[..|ops| - 1], ops[|ops| - 1];
    AllInside(nominal, data, front) && (op.Record? ==> Inside(Run(nominal, data, front), op.now))
  }

  /** Frames handed to the meter: transmissions recorded and frames received. */
  function Handed(ops: seq<Op>): nat {
    if ops == [] then 0
    else
      var op := ops[|ops| - 1];
      Handed(ops[..|ops| - 1]) + if HandsIn(op) then 1 else 0
  }

  predicate HandsIn(op: Op) { op.Record? || (op.Watch? && op.frame.direction.Receive?) }

  /** Frames in the record or set aside. */
  function Records(m: Meter): nat { |m.host.log| + m.tally.stamped + m.tally.echoes + m.tally.weightless }

  lemma RecordTxRecords(m: Meter, frame: Can.Frame, key: nat, now: int)
    requires m.configured && 0 < m.rates.nominal < Occupancy.MAX_BITRATE
    ensures Records(RecordTx(m, frame, key, now)) == Records(m) + 1
  {
    Occupancy.OccupancyIsPositive(frame, m.rates.nominal, m.rates.data);
  }

  lemma ObserveRecords(m: Meter, frame: Can.Frame, key: nat, totalBitCount: nat, now: int, wrapUS: nat)
    requires m.configured
    ensures Records(Observe(m, frame, key, totalBitCount, now, wrapUS))
            == Records(m) + if frame.direction.Receive? then 1 else 0
  {
  }

  lemma StepRecords(m: Meter, op: Op)
    requires m.configured && 0 < m.rates.nominal < Occupancy.MAX_BITRATE
    ensures Records(Step(m, op)) == Records(m) + (if HandsIn(op) then 1 else 0) && Step(m, op).configured
  {
    match op
    case Record(frame, key, later) => RecordTxRecords(m, frame, key, later);
    case Watch(frame, key, later, totalBitCount, wrapUS) =>
      ObserveRecords(m, frame, key, totalBitCount, later, wrapUS);
    case Look(later) =>
  }

  lemma StepKeeps(m: Meter, now: int, op: Op)
    requires Inv(m, now) && now <= op.now && (op.Record? ==> Inside(m, op.now))
    ensures Inv(Step(m, op), op.now)
  {
    match op
    case Record(frame, key, later) => RecordTxKeeps(m, now, frame, key, later);
    case Watch(frame, key, later, totalBitCount, wrapUS) =>
      ObserveKeeps(m, now, frame, key, totalBitCount, later, wrapUS);
    case Look(later) => SnapshotKeeps(m, now, later);
  }

  lemma {:induction false} RunKeeps(nominal: nat, data: nat, ops: seq<Op>, now: int)
    requires nominal < Occupancy.MAX_BITRATE
    requires Ordered(ops) && AllInside(nominal, data, ops) && (ops != [] ==> ops[|ops| - 1].now <= now)
    ensures var m := Run(nominal, data, ops);
            Inv(m, now) && m.configured && Records(m) == Handed(ops)
  {
    if ops == [] {
      assert Inv(Configure(nominal, data), now);
    } else {
      var front, op := ops[..|ops| - 1], ops[|ops| - 1];
      RunKeeps(nominal, data, front, op.now);
      var m := Run(nominal, data, front);
      StepKeeps(m, op.now, op);
      StepRecords(m, op);
    }
    if ops != [] {
      var op := ops[|ops| - 1];
      LaterKeeps(Run(nominal, data, ops), op.now, now);
    }
  }

  /** The host buckets hold exactly the records neither moved nor dropped. */
  predicate ExactHost(h: Host) {
    h.window.origin.Some? ==>
      Sum(h.window.slots) == HeldBetween(h.log, h.window.origin.value, h.window.origin.value + WINDOW)
  }

  /** The hardware buckets hold exactly the frames put in since the window was opened whose
      device-time bucket has not been dropped. */
  predicate ExactHw(hw: Hw) {
    if hw.window.originUS == 0 then hw.log == [] && Sum(hw.window.slots) == EMPTY
    else var origin := hw.window.originUS * 1000; Sum(hw.window.slots) == HeldBetween(hw.log, origin, origin + WINDOW)
  }

  /** Frames of the host window whose bucket has been dropped. */
  function AgedHost(h: Host): nat { if h.window.origin.None? then 0 else Aged(h.log, h.window.origin.value) }

  /** The same for the hardware window. */
  function AgedHw(hw: Hw): nat { if hw.window.originUS == 0 then 0 else Aged(hw.log, hw.window.originUS * 1000) }

  lemma HostCounts(h: Host, now: int)
    requires HostOk(h, now)
    ensures ExactHost(h) && Sum(h.window.slots).frames + AgedHost(h) + MovedCount(h.log) == |h.log|
  {
    if h.window.origin.Some? {
      SumIsExact(h.window, h.log, now);
      assert forall r :: r in h.log ==> Placed(r, h.window.origin.value, now);
      HeldAgedOrMoved(h.log, h.window.origin.value);
    } else {
      NoSlotsSum();
    }
  }

  lemma HwCounts(hw: Hw)
    requires HwInv(hw)
    ensures ExactHw(hw) && Sum(hw.window.slots).frames + AgedHw(hw) == |hw.log|
  {
    if hw.window.originUS == 0 {
      NoSlotsSum();
    } else {
      var origin := hw.window.originUS * 1000;
      SumIsExact(InNs(hw.window), hw.log, hw.seenUS * 1000);
      assert forall r :: r in hw.log ==> Placed(r, origin, hw.seenUS * 1000);
      HeldAgedOrMoved(hw.log, origin);
      NothingMoved(hw.log);
    }
  }

  /** Frames handed in and counted nowhere: their bucket was dropped, or the hardware window refused them
      or forgot them at a restart or reopening, or they were taken for echoes, or last no time. */
  function NotCounted(m: Meter): nat {
    AgedHost(m.host) + AgedHw(m.hw) + m.hw.past.refused + m.hw.past.forgotten + m.tally.echoes + m.tally.weightless
  }

  lemma InvCounts(m: Meter, now: int)
    requires Inv(m, now)
    ensures ExactHost(m.host) && ExactHw(m.hw) && Counted(m).frames + NotCounted(m) == Records(m)
  {
    HostCounts(m.host, now);
    HwCounts(m.hw);
  }

  /** Over any run in time order with no transmission recorded on the right edge: the buckets of both
      windows hold exactly the frames recorded for them that have neither been moved nor dropped,
      no record is moved twice, and every frame handed in is counted in one window or accounted for
      as not counted, once. */
  lemma EveryFrameCountedOnce(nominal: nat, data: nat, ops: seq<Op>)
    requires nominal < Occupancy.MAX_BITRATE
    requires ops != [] && Ordered(ops) && AllInside(nominal, data, ops)
    ensures var m := Run(nominal, data, ops);
            && ExactHost(m.host) && ExactHw(m.hw) && MovedOnce(m.host.log)
            && Counted(m).frames + NotCounted(m) == Handed(ops)
  {
    RunKeeps(nominal, data, ops, ops[|ops| - 1].now);
    InvCounts(Run(nominal, data, ops), ops[|ops| - 1].now);
  }
}
