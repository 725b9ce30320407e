/** Which early echo a recorded transmission takes, and what it does to the two windows
    (driver/internal/backend/busload.go:83-105, 386-427). */
module EarlyEchoes {
  import opened Basics
  import opened HostWindow
  import opened MeterSpec
  import opened MeterConservation
  import opened MeterProperties
  import Can
  import Occupancy

  predicate InTime(e: Echo, now: int) { now - e.at <= 100_000_000 }

  /** An echo that the transmission recorded `now` under `key` may take. */
  predicate Takes(e: Echo, key: nat, now: int) { e.key == key && InTime(e, now) }

  // ---------- expiry ----------

  /** Expiry keeps every echo no older than 100 ms as often as it was there, and no other. */
  lemma {:induction false} ExpireEarlyExact(es: seq<Echo>, now: int, e: Echo)
    ensures multiset(ExpireEarly(es, now))[e] == if InTime(e, now) then multiset(es)[e] else 0
  {
    if es != [] {
      ExpireEarlyExact(es[..|es| - 1], now, e);
      assert es == es[..|es| - 1] + [es[|es| - 1]];
    }
  }

  /** And it keeps their order. */
  lemma {:induction false} ExpireEarlyAppend(a: seq<Echo>, b: seq<Echo>, now: int)
    ensures ExpireEarly(a + b, now) == ExpireEarly(a, now) + ExpireEarly(b, now)
  {
    if b == [] {
      assert a + b == a;
    } else {
      assert (a + b)[..|a + b| - 1] == a + b[..|b| - 1];
      ExpireEarlyAppend(a, b[..|b| - 1], now);
    }
  }

  /** The same for transmissions, which wait for one second. */
  lemma {:induction false} ExpireAppend(a: seq<Pending>, b: seq<Pending>, now: int)
    ensures Expire(a + b, now) == Expire(a, now) + Expire(b, now)
  {
    if b == [] {
      assert a + b == a;
    } else {
      assert (a + b)[..|a + b| - 1] == a + b[..|b| - 1];
      ExpireAppend(a, b[..|b| - 1], now);
    }
  }

  // ---------- the search ----------

  /** The search finds the first echo with the key, if there is one. */
  lemma {:induction false} FindEarlyFirst(es: seq<Echo>, key: nat)
    ensures var i := FindEarly(es, key);
            && (forall j :: 0 <= j < i ==> es[j].key != key)
            && if i < |es| then es[i].key == key else forall e :: e in es ==> e.key != key
  {
    if es != [] && es[0].key != key {
      FindEarlyFirst(es[1..], key);
      var i := FindEarly(es, key);
      forall j | 0 <= j < i ensures es[j].key != key {
        if j > 0 { assert es[j] == es[1..][j - 1]; }
      }
      assert forall e :: e in es ==> e == es[0] || e in es[1..];
    }
  }

  lemma {:induction false} FindEarlySplit(a: seq<Echo>, e: Echo, b: seq<Echo>, key: nat)
    requires e.key == key && forall x :: x in a ==> x.key != key
    ensures FindEarly(a + [e] + b, key) == |a|
  {
    var all := a + [e] + b;
    if a != [] {
      assert all[1..] == a[1..] + [e] + b && all[0] == a[0];
      FindEarlySplit(a[1..], e, b, key);
    }
  }

  /** After expiry the echo taken is the first one in time with the key. */
  lemma TakenIndex(es: seq<Echo>, key: nat, now: int, j: nat)
    requires j < |es| && Takes(es[j], key, now) && forall i :: 0 <= i < j ==> !Takes(es[i], key, now)
    ensures var kept, i := ExpireEarly(es, now), |ExpireEarly(es[..j], now)|;
            && FindEarly(kept, key) == i < |kept| && kept[i] == es[j]
            && Without(kept, i) == ExpireEarly(es[..j], now) + ExpireEarly(es[j + 1..], now)
  {
    var a, e, b := ExpireEarly(es[..j], now), es[j], ExpireEarly(es[j + 1..], now);
    assert es == es[..j] + [e] + es[j + 1..];
    ExpireEarlyAppend(es[..j] + [e], es[j + 1..], now);
    ExpireEarlyAppend(es[..j], [e], now);
    assert ExpireEarly([e], now) == [e];
    assert ExpireEarly(es, now) == a + [e] + b;
    forall x | x in a ensures x.key != key {
      ExpireEarlyExact(es[..j], now, x);
      assert x in multiset(es[..j]);
    }
    FindEarlySplit(a, e, b, key);
  }

  // ---------- recording a transmission ----------

  predicate NoneTaken(m: Meter, key: nat, now: int) { forall e :: e in m.early ==> !Takes(e, key, now) }

  /** The newest pending entry is this transmission. */
  predicate Newest(r: Meter, m: Meter, key: nat, now: int, confirmed: bool) {
    && r.pending != []
    && r.pending[|r.pending| - 1].(occupiedNs := 0) == Pending(key, now, 0, confirmed, |m.host.log|)
  }

  /** The older entries are the unexpired ones, less the oldest of them when 256 wait already. */
  predicate OthersWait(r: Meter, m: Meter, now: int)
    requires r.pending != []
  {
    var waiting := Expire(m.pending, now);
    r.pending[..|r.pending| - 1] == if |waiting| < 256 then waiting else waiting[1..]
  }

  lemma NothingToTake(m: Meter, key: nat, now: int)
    requires NoneTaken(m, key, now)
    ensures FindEarly(ExpireEarly(m.early, now), key) == |ExpireEarly(m.early, now)|
  {
    var kept := ExpireEarly(m.early, now);
    FindEarlyFirst(kept, key);
    forall e | e in kept ensures e.key != key {
      ExpireEarlyExact(m.early, now, e);
      assert e in multiset(kept) && e in multiset(m.early);
      assert !Takes(e, key, now);
    }
  }

  /** Without an echo in time under its key a transmission waits unconfirmed in the host window, with its own
      bus time; the hardware window is untouched, and every echo in time goes on waiting. */
  lemma RecordedWithoutEcho(m: Meter, before: int, frame: Can.Frame, key: nat, now: int)
    requires m.configured && Inv(m, before) && before <= now && NoneTaken(m, key, now)
    ensures var r := RecordTx(m, frame, key, now);
            && r.hw == m.hw && r.early == ExpireEarly(m.early, now)
            && Newest(r, m, key, now, false) && OthersWait(r, m, now)
            && Sum(r.host.window.slots)
               == Plus(Sum(Rotate(m.host.window, now).slots),
                       Slot(Occupancy.FrameOccupancy(frame, m.rates.nominal, m.rates.data), 1))
  {
    NothingToTake(m, key, now);
    Occupancy.OccupancyIsPositive(frame, m.rates.nominal, m.rates.data);
    LaterKeeps(m, before, now);
    AddAddsOne(m.host.window, m.host.log, now, ModelOccupancy(m, frame));
  }

  /** With one, exactly the first of them stops waiting and confirms the transmission. */
  lemma RecordedWithEcho(m: Meter, frame: Can.Frame, key: nat, now: int, j: nat)
    requires m.configured && j < |m.early| && Takes(m.early[j], key, now)
    requires forall i :: 0 <= i < j ==> !Takes(m.early[i], key, now)
    ensures var r := RecordTx(m, frame, key, now);
            && r.early == ExpireEarly(m.early[..j], now) + ExpireEarly(m.early[j + 1..], now)
            && Newest(r, m, key, now, true) && OthersWait(r, m, now)
  {
    TakenIndex(m.early, key, now, j);
  }

  /** The transmission has then left the host window, which is only rotated, and stands in the hardware window
      at the echo's device time and with the echo's bus time, unless that refuses it. */
  lemma EchoMovesRecorded(m: Meter, before: int, frame: Can.Frame, key: nat, now: int, j: nat)
    requires m.configured && Inv(m, before) && before <= now && Inside(m, now)
    requires j < |m.early| && Takes(m.early[j], key, now) && m.early[j].frame.timestampUS != 0
    requires forall i :: 0 <= i < j ==> !Takes(m.early[i], key, now)
    ensures var e, r := m.early[j], RecordTx(m, frame, key, now);
            && Sum(r.host.window.slots) == Sum(Rotate(m.host.window, now).slots)
            && Sum(r.hw.window.slots)
               == Plus(Sum(RotatedHw(m.hw, e.frame.timestampUS, e.at, e.wrapUS, e.occupiedNs).window.slots),
                       if Accepted(m.hw, e.frame.timestampUS, e.at, e.wrapUS, e.occupiedNs)
                       then Slot(e.occupiedNs, 1) else EMPTY)
  {
    var e, r := m.early[j], Recorded(m, frame, key, now);
    var i := |ExpireEarly(m.early[..j], now)|;
    TakenIndex(m.early, key, now, j);
    RecordedKeeps(m, before, frame, key, now);
    AdoptedKeeps(r, now, i);
    var q := Adopted(r, i);
    var p := q.pending[|q.pending| - 1];
    assert AdoptEcho(r, key) == Relocate(q, p, e.frame.timestampUS, e.at, e.wrapUS, e.occupiedNs);
    RelocationMovesOne(q, now, p, e.frame.timestampUS, e.at, e.wrapUS, e.occupiedNs);
    RecordedHeld(m, before, frame, key, now);
  }

  lemma RecordedHeld(m: Meter, before: int, frame: Can.Frame, key: nat, now: int)
    requires m.configured && Inv(m, before) && before <= now
    ensures var r := Recorded(m, frame, key, now); var p := r.pending[|r.pending| - 1];
            && p.ticket < |r.host.log| && r.host.window.origin.Some? && HeldInHost(r.host, p)
            && Sum(r.host.window.slots) == Plus(Sum(Rotate(m.host.window, now).slots), Slot(p.occupiedNs, 1))
  {
    Occupancy.OccupancyIsPositive(frame, m.rates.nominal, m.rates.data);
    LaterKeeps(m, before, now);
    AddAddsOne(m.host.window, m.host.log, now, ModelOccupancy(m, frame));
    AddHostKeeps(m.host, before, ModelOccupancy(m, frame), now);
    RotateHostKeeps(m.host, before, now);
  }

  // ---------- every run ----------

  /** An echo only waits when it has a device time. */
  predicate Timed(m: Meter) { forall e :: e in m.early ==> e.frame.timestampUS != 0 }

  lemma ExpireEarlySubset(es: seq<Echo>, now: int)
    ensures forall e :: e in ExpireEarly(es, now) ==> e in es
  {
    forall e | e in ExpireEarly(es, now) ensures e in es {
      ExpireEarlyExact(es, now, e);
      assert e in multiset(es);
    }
  }

  lemma StepTimed(m: Meter, op: Op)
    requires Timed(m)
    ensures Timed(Step(m, op))
  {
    ExpireEarlySubset(m.early, op.now);
  }

  lemma {:induction false} EchoesAreTimed(nominal: nat, data: nat, ops: seq<Op>)
    ensures Timed(Run(nominal, data, ops))
  {
    if ops != [] {
      EchoesAreTimed(nominal, data, ops[..|ops| - 1]);
      StepTimed(Run(nominal, data, ops[..|ops| - 1]), ops[|ops| - 1]);
    }
  }
}
