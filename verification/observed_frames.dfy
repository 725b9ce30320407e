/** What an observed frame does to the lists of transmissions and echoes, and what it is charged for
    (driver/internal/backend/busload.go:115-159). */
module ObservedFrames {
  import opened Basics
  import opened HostWindow
  import opened MeterSpec
  import opened MeterConservation
  import opened MeterProperties
  import opened EarlyEchoes
  import Can
  import Occupancy

  /** The transmission a received frame is taken for: under its key, recorded within the last 100 ms. */
  predicate Lookalike(p: Pending, key: nat, now: int) { p.key == key && now - p.at <= 100_000_000 }

  /** The transmission an echo confirms. */
  predicate Awaits(p: Pending, key: nat) { p.key == key && !p.confirmed }

  lemma {:induction false} FindIs(ps: seq<Pending>, key: nat, unconfirmedOnly: bool, now: int, i: nat)
    requires i < |ps| && Matches(ps[i], key, unconfirmedOnly, now)
    requires forall j :: 0 <= j < i ==> !Matches(ps[j], key, unconfirmedOnly, now)
    ensures Find(ps, key, unconfirmedOnly, now) == i
  {
    if i > 0 { FindIs(ps[1..], key, unconfirmedOnly, now, i - 1); }
  }

  /** Exactly entry `i` of the list is gone. */
  predicate Gone(before: seq<Pending>, after: seq<Pending>, i: nat)
    requires i < |before|
  {
    after == before[..i] + before[i + 1..]
  }

  /** A received frame taken for an echo ends the wait of the first such transmission, and of no other. One
      confirmed before changes nothing else; nor does an unconfirmed one, if the frame has no device time. */
  lemma LookalikeConsumes(m: Meter, now: int, frame: Can.Frame, key: nat, wrapUS: nat, occupiedNs: nat, i: nat)
    requires i < |m.pending| && Lookalike(m.pending[i], key, now)
    requires forall j :: 0 <= j < i ==> !Lookalike(m.pending[j], key, now)
    ensures var r := ObserveRx(m, frame, key, now, wrapUS, occupiedNs);
            && Gone(m.pending, r.pending, i) && r.early == m.early
            && (m.pending[i].confirmed || frame.timestampUS == 0 ==> r.host == m.host && r.hw == m.hw)
  {
    FindIs(m.pending, key, false, now, i);
  }

  /** An unconfirmed one is moved to the device time of the frame, and charged what the frame is. */
  lemma LookalikeMovesOne(m: Meter, now: int, frame: Can.Frame, key: nat, wrapUS: nat, occupiedNs: nat, i: nat)
    requires Inv(m, now) && frame.timestampUS != 0
    requires i < |m.pending| && Lookalike(m.pending[i], key, now) && !m.pending[i].confirmed
    requires forall j :: 0 <= j < i ==> !Lookalike(m.pending[j], key, now)
    ensures var p := m.pending[i];
            && Backed(p, m.host.log) && m.host.window.origin.Some?
            && Counted(ObserveRx(m, frame, key, now, wrapUS, occupiedNs))
               == Plus(RotatedCount(m, frame.timestampUS, now, wrapUS, occupiedNs),
                       Plus(Taken(p, HeldInHost(m.host, p)),
                            PutIn(occupiedNs, Accepted(m.hw, frame.timestampUS, now, wrapUS, occupiedNs))))
  {
    FindIs(m.pending, key, false, now, i);
    var p := m.pending[i];
    assert p in m.pending && Backed(p, m.host.log);
    var c := m.(pending := Without(m.pending, i), tally := m.tally.(echoes := m.tally.echoes + 1));
    RelocationCounts(c, now, p, frame.timestampUS, wrapUS, occupiedNs);
  }

  /** A received frame with a device time that is nobody's echo goes into the hardware window, once. */
  lemma ReceivedCountsOnce(m: Meter, now: int, frame: Can.Frame, key: nat, wrapUS: nat, occupiedNs: nat)
    requires frame.timestampUS != 0 && forall p :: p in m.pending ==> !Lookalike(p, key, now)
    ensures var r := ObserveRx(m, frame, key, now, wrapUS, occupiedNs);
            && r.pending == m.pending && r.early == m.early && r.host.window == m.host.window
            && Sum(r.hw.window.slots)
               == Plus(Sum(RotatedHw(m.hw, frame.timestampUS, now, wrapUS, occupiedNs).window.slots),
                       PutIn(occupiedNs, Accepted(m.hw, frame.timestampUS, now, wrapUS, occupiedNs)))
  {
    FindFirst(m.pending, key, false, now);
    assert forall p :: p in m.pending && Matches(p, key, false, now) ==> Lookalike(p, key, now);
    AddHardwareAddsOne(m.hw, frame.timestampUS, now, wrapUS, occupiedNs);
  }

  /** An echo confirms the first transmission that awaits one, which keeps waiting for look-alikes. */
  lemma EchoConfirms(m: Meter, now: int, frame: Can.Frame, key: nat, wrapUS: nat, occupiedNs: nat, i: nat)
    requires i < |m.pending| && Awaits(m.pending[i], key)
    requires forall j :: 0 <= j < i ==> !Awaits(m.pending[j], key)
    ensures var r := ObserveTx(m, frame, key, now, wrapUS, occupiedNs);
            && r.pending == m.pending[i := m.pending[i].(confirmed := true)] && r.early == m.early
            && (frame.timestampUS == 0 ==> r.host == m.host && r.hw == m.hw)
  {
    FindIs(m.pending, key, true, now, i);
  }

  /** An echo nobody awaits waits itself when it has a device time, behind the others, of which the oldest
      makes room when 256 wait already. Without a device time it is forgotten. */
  lemma StrayEchoQueues(m: Meter, now: int, frame: Can.Frame, key: nat, wrapUS: nat, occupiedNs: nat)
    requires forall p :: p in m.pending ==> !Awaits(p, key)
    ensures var r := ObserveTx(m, frame, key, now, wrapUS, occupiedNs);
            if frame.timestampUS == 0 then r == m
            else r == m.(early := (if |m.early| < 256 then m.early else m.early[1..])
                                  + [Echo(frame, key, now, wrapUS, occupiedNs)])
  {
    FindFirst(m.pending, key, true, now);
    assert forall p :: p in m.pending && Matches(p, key, true, now) ==> Awaits(p, key);
  }

  // ---------- what still waits ----------

  /** No transmission waits for more than a second, and no echo for more than 100 ms. */
  predicate Fresh(m: Meter, now: int) {
    (forall p :: p in m.pending ==> now - p.at <= 1_000_000_000) && (forall e :: e in m.early ==> InTime(e, now))
  }

  lemma ExpiredIsFresh(m: Meter, now: int)
    ensures Fresh(Expired(m, now), now)
  {
    forall p | p in Expire(m.pending, now) ensures now - p.at <= 1_000_000_000 { ExpireExact(m.pending, now, p); }
    forall e | e in ExpireEarly(m.early, now) ensures InTime(e, now) {
      ExpireEarlyExact(m.early, now, e);
      assert multiset(ExpireEarly(m.early, now))[e] > 0;
    }
  }

  lemma RecordedIsFresh(m: Meter, frame: Can.Frame, key: nat, now: int)
    ensures Fresh(Recorded(m, frame, key, now), now)
  {
    ExpiredIsFresh(m, now);
  }

  lemma AdoptStaysFresh(r: Meter, key: nat, now: int)
    requires Fresh(r, now) && r.pending != []
    ensures Fresh(AdoptEcho(r, key), now)
  {
    var i, last := FindEarly(r.early, key), r.pending[|r.pending| - 1];
    if i < |r.early| {
      assert last in r.pending;
      assert forall p :: p in Adopted(r, i).pending ==> p in r.pending || p == last.(confirmed := true);
    }
  }

  lemma ObserveTxStaysFresh(m: Meter, frame: Can.Frame, key: nat, now: int, wrapUS: nat, occupiedNs: nat)
    requires Fresh(m, now)
    ensures Fresh(ObserveTx(m, frame, key, now, wrapUS, occupiedNs), now)
  {
    var i := Find(m.pending, key, true, now);
    if i < |m.pending| {
      var confirmed := m.pending[i].(confirmed := true);
      assert m.pending[i] in m.pending;
      assert forall p :: p in m.pending[i := confirmed] ==> p in m.pending || p == confirmed;
    }
  }

  lemma ObserveRxStaysFresh(m: Meter, frame: Can.Frame, key: nat, now: int, wrapUS: nat, occupiedNs: nat)
    requires Fresh(m, now)
    ensures Fresh(ObserveRx(m, frame, key, now, wrapUS, occupiedNs), now)
  {
    var i := Find(m.pending, key, false, now);
    if i < |m.pending| { assert forall p :: p in Without(m.pending, i) ==> p in m.pending; }
  }

  /** After every operation of a configured meter only what is still in time waits. */
  lemma OnlyFreshWaits(m: Meter, op: Op)
    requires m.configured && m.rates.nominal > 0
    ensures Fresh(Step(m, op), op.now)
  {
    ExpiredIsFresh(m, op.now);
    match op
    case Record(frame, key, now) =>
      RecordedIsFresh(m, frame, key, now);
      AdoptStaysFresh(Recorded(m, frame, key, now), key, now);
    case Watch(frame, key, now, totalBitCount, wrapUS) =>
      var occupied := ObservedOccupancy(m, frame, totalBitCount);
      ObserveTxStaysFresh(Expired(m, now), frame, key, now, wrapUS, occupied);
      ObserveRxStaysFresh(Expired(m, now), frame, key, now, wrapUS, occupied);
    case Look(now) =>
  }

  /** And a meter that has not been configured counts and remembers nothing. */
  lemma UnconfiguredIsInert(m: Meter, op: Op)
    requires !m.configured
    ensures Step(m, op) == m
  {
  }

  // ---------- what a frame is charged ----------

  /** A measured count ends with the end of frame, three bits before the model's: a frame measured at its
      modelled length is charged exactly what the model charges, and each further bit costs time. */
  lemma MeasuredThroughEOF(m: Meter, frame: Can.Frame)
    requires m.rates.nominal < Occupancy.MAX_BITRATE && m.rates.data > 0
    ensures var (arb, data) := Occupancy.FrameBitCounts(frame);
            && arb + data > 3
            && ObservedOccupancy(m, frame, arb + data - 3) == ObservedOccupancy(m, frame, 0)
               == Occupancy.FrameOccupancy(frame, m.rates.nominal, m.rates.data)
  {
    Occupancy.FrameCountBounds(frame);
    Occupancy.MeasuredEqualsModel(frame, m.rates.nominal, m.rates.data);
  }

  /** The bus time of a frame: the model's, or that of the measured bits and the three of intermission. */
  predicate Charged(m: Meter, frame: Can.Frame, totalBitCount: nat, occupiedNs: nat) {
    var measured := Occupancy.FrameOccupancyFromBitCount(frame, totalBitCount + 3, m.rates.nominal, m.rates.data);
    if totalBitCount == 0 then occupiedNs == Occupancy.FrameOccupancy(frame, m.rates.nominal, m.rates.data)
    else occupiedNs == measured
  }

  lemma ExpiredInv(m: Meter, before: int, now: int)
    requires Inv(m, before) && before <= now
    ensures Inv(Expired(m, now), now)
  {
    LaterKeeps(m, before, now);
    ExpireKeeps(m.pending, now, m.host.log);
  }

  /** A received frame that is nobody's echo is counted once and charged its bus time: at its device time when
      it has one, else at the host time. */
  lemma ReceivedIsCharged(m: Meter, before: int, frame: Can.Frame, key: nat, totalBitCount: nat, now: int, wrapUS: nat,
                          occupiedNs: nat)
    requires m.configured && Inv(m, before) && before <= now && frame.direction.Receive?
    requires Charged(m, frame, totalBitCount, occupiedNs) && occupiedNs > 0
    requires forall p :: p in m.pending ==> !Lookalike(p, key, now)
    ensures var r := Observe(m, frame, key, totalBitCount, now, wrapUS);
            if frame.timestampUS == 0 then
              r.hw == m.hw
              && Sum(r.host.window.slots) == Plus(Sum(Rotate(m.host.window, now).slots), Slot(occupiedNs, 1))
            else
              r.host.window == m.host.window
              && Sum(r.hw.window.slots)
                 == Plus(Sum(RotatedHw(m.hw, frame.timestampUS, now, wrapUS, occupiedNs).window.slots),
                         PutIn(occupiedNs, Accepted(m.hw, frame.timestampUS, now, wrapUS, occupiedNs)))
  {
    var q := Expired(m, now);
    ExpiredInv(m, before, now);
    forall p | p in q.pending ensures !Lookalike(p, key, now) { ExpireExact(m.pending, now, p); }
    if frame.timestampUS == 0 {
      LookalikeCountsOnce(q, now, frame, key, wrapUS, occupiedNs);
    } else {
      ReceivedCountsOnce(q, now, frame, key, wrapUS, occupiedNs);
    }
  }

  /** An echo with a device time moves the first transmission that awaits it, no older than a second, to that
      time and charges it what the echo took. */
  lemma EchoIsCharged(m: Meter, before: int, frame: Can.Frame, key: nat, totalBitCount: nat, now: int, wrapUS: nat,
                      occupiedNs: nat, i: nat)
    requires m.configured && Inv(m, before) && before <= now && frame.direction.Transmit? && frame.timestampUS != 0
    requires Charged(m, frame, totalBitCount, occupiedNs)
    requires i < |m.pending| && Awaits(m.pending[i], key) && now - m.pending[i].at <= 1_000_000_000
    requires forall j :: 0 <= j < i ==> !Awaits(m.pending[j], key)
    ensures var p := m.pending[i];
            && Backed(p, m.host.log) && m.host.window.origin.Some?
            && Counted(Observe(m, frame, key, totalBitCount, now, wrapUS))
               == Plus(RotatedCount(m, frame.timestampUS, now, wrapUS, occupiedNs),
                       Plus(Taken(p, HeldInHost(m.host, p)),
                            PutIn(occupiedNs, Accepted(m.hw, frame.timestampUS, now, wrapUS, occupiedNs))))
  {
    var q, p := Expired(m, now), m.pending[i];
    ExpiredInv(m, before, now);
    FirstAwaiting(m.pending, key, now, i);
    assert p in m.pending && Backed(p, m.host.log);
    EchoMovesOne(q, now, frame, key, wrapUS, occupiedNs);
  }

  lemma FirstAwaiting(ps: seq<Pending>, key: nat, now: int, i: nat)
    requires i < |ps| && Awaits(ps[i], key) && now - ps[i].at <= 1_000_000_000
    requires forall j :: 0 <= j < i ==> !Awaits(ps[j], key)
    ensures var kept := Expire(ps, now); var k := Find(kept, key, true, now);
            k < |kept| && kept[k] == ps[i]
  {
    var a, b := Expire(ps[..i], now), Expire(ps[i + 1..], now);
    assert ps == ps[..i] + [ps[i]] + ps[i + 1..];
    ExpireAppend(ps[..i] + [ps[i]], ps[i + 1..], now);
    ExpireAppend(ps[..i], [ps[i]], now);
    assert Expire([ps[i]], now) == [ps[i]];
    forall p | p in a ensures !Awaits(p, key) { ExpireExact(ps[..i], now, p); }
    assert forall j :: 0 <= j < |a| ==> !Awaits(a[j], key);
    FindIs(a + [ps[i]] + b, key, true, now, |a|);
  }
}
