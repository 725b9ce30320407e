/** The rolling window of 1 ms buckets (driver/internal/backend/busload.go:222-261, 355-384)
    against a plain record of what happened and when. Times are nanoseconds. */
module HostWindow {
  import opened Basics

  const WINDOW := 1_000_000_000
  const SLOT := 1_000_000
  const COUNT := 1000

  datatype Slot = Slot(occupiedNs: int, frames: int)

  const EMPTY := Slot(0, 0)

  function Plus(a: Slot, b: Slot): Slot { Slot(a.occupiedNs + b.occupiedNs, a.frames + b.frames) }

  function Minus(a: Slot, b: Slot): Slot { Slot(a.occupiedNs - b.occupiedNs, a.frames - b.frames) }

  predicate AtMost(a: Slot, b: Slot) { a.occupiedNs <= b.occupiedNs && a.frames <= b.frames }

  type Slots = s: seq<Slot> | |s| == COUNT witness NoSlots()

  function NoSlots(): seq<Slot> { seq(COUNT, _ => EMPTY) }

  /** `copy(slots, slots[shift:])` followed by clearing the tail. */
  function Shifted(s: Slots, shift: nat): Slots {
    seq(COUNT, i requires 0 <= i < COUNT => if i + shift < COUNT then s[i + shift] else EMPTY)
  }

  datatype Window = Window(origin: Option<int>, slots: Slots)

  const Fresh := Window(None, NoSlots())

  /** Buckets to drop so that `now` is at most a window beyond the origin. */
  function ShiftFor(elapsed: int): int {
    (elapsed - WINDOW + SLOT - 1) / SLOT
  }

  function Rotate(w: Window, now: int): Window {
    if w.origin.None? then w.(origin := Some(now))
    else if now - w.origin.value <= WINDOW then w
    else
      var shift := ShiftFor(now - w.origin.value);
      if shift >= COUNT then Window(Some(now), NoSlots())
      else Window(Some(w.origin.value + shift * SLOT), Shifted(w.slots, shift))
  }

  /** Go's integer division, which truncates toward zero. */
  function TruncDiv(a: int, b: int): int
    requires b > 0
  {
    if a >= 0 then a / b else -((-a) / b)
  }

  function SlotIndex(w: Window, at: int): int
    requires w.origin.Some?
  {
    Min(TruncDiv(at - w.origin.value, SLOT), COUNT - 1)
  }

  function AddDuration(w: Window, occupiedNs: int, now: int): Window {
    if occupiedNs <= 0 then w
    else
      var r := Rotate(w, now);
      var idx := SlotIndex(r, now);
      if idx < 0 then r else r.(slots := r.slots[idx := Plus(r.slots[idx], Slot(occupiedNs, 1))])
  }

  function RemoveHost(w: Window, at: int, occupiedNs: int): Window {
    var r := Rotate(w, at);
    if at < r.origin.value then r
    else
      var idx := SlotIndex(r, at);
      if idx < 0 || r.slots[idx].frames == 0 || r.slots[idx].occupiedNs < occupiedNs then r
      else r.(slots := r.slots[idx := Minus(r.slots[idx], Slot(occupiedNs, 1))])
  }

  function Sum(s: seq<Slot>): Slot {
    if s == [] then EMPTY else Plus(Sum(s[..|s| - 1]), s[|s| - 1])
  }

  // ---------- the record ----------

  /** One frame put in the window at `at`, into the bucket whose left edge was `place`, and how
      often it has been moved out of it. The program keeps no such record. */
  datatype Rec = Rec(at: int, place: int, occupiedNs: int, moves: nat)

  function Weight(r: Rec): Slot { if r.moves == 0 then Slot(r.occupiedNs, 1) else EMPTY }

  /** What the bucket with left edge `place` must hold. */
  function Held(log: seq<Rec>, place: int): Slot {
    if log == [] then EMPTY
    else
      var r := log[|log| - 1];
      var rest := Held(log[..|log| - 1], place);
      if r.place == place then Plus(rest, Weight(r)) else rest
  }

  /** The records not moved whose bucket has its left edge in `[from, to)`. */
  function HeldBetween(log: seq<Rec>, from: int, to: int): Slot {
    if log == [] then EMPTY
    else
      var r := log[|log| - 1];
      var rest := HeldBetween(log[..|log| - 1], from, to);
      if from <= r.place < to then Plus(rest, Weight(r)) else rest
  }

  /** The records not moved that happened within `[from, to]`. */
  function TotalWithin(log: seq<Rec>, from: int, to: int): Slot {
    if log == [] then EMPTY
    else
      var r := log[|log| - 1];
      var rest := TotalWithin(log[..|log| - 1], from, to);
      if from <= r.at <= to then Plus(rest, Weight(r)) else rest
  }

  /** Where one record may lie: in its bucket or on its right edge, on the window's grid while it
      is still inside, and once dropped it is older than the window less one bucket. */
  predicate Placed(r: Rec, origin: int, now: int) {
    && r.place <= r.at <= r.place + SLOT && r.at <= now && r.occupiedNs > 0
    && r.place <= origin + (COUNT - 1) * SLOT
    && if r.place >= origin then (r.place - origin) % SLOT == 0
       else r.place + SLOT <= origin && r.at < now - WINDOW + SLOT
  }

  /** Every bucket holds exactly the records placed in it and not moved. */
  predicate Tracks(w: Window, log: seq<Rec>, now: int) {
    if w.origin.None? then log == [] && w.slots == NoSlots()
    else
      var origin := w.origin.value;
      && origin <= now
      && (forall r :: r in log ==> Placed(r, origin, now) && r.at <= origin + WINDOW)
      && forall i :: 0 <= i < COUNT ==> w.slots[i] == Held(log, origin + i * SLOT)
  }

  lemma {:induction false} HeldNone(log: seq<Rec>, place: int)
    requires forall r :: r in log ==> r.place != place
    ensures Held(log, place) == EMPTY
  {
    if log != [] { HeldNone(log[..|log| - 1], place); }
  }

  /** What a rotation does to one record. */
  lemma RotatePlaced(r: Rec, origin: int, now: int, later: int)
    requires Placed(r, origin, now) && r.at <= origin + WINDOW && origin <= now <= later
    ensures later - origin <= WINDOW ==> Placed(r, origin, later)
    ensures var shift := ShiftFor(later - origin);
            && (later - origin > WINDOW && shift < COUNT
                ==> Placed(r, origin + shift * SLOT, later) && r.at <= origin + shift * SLOT + WINDOW)
            && (later - origin > WINDOW && shift >= COUNT ==> Placed(r, later, later) && r.place < later)
  {
  }

  /** After dropping that many buckets the time is within the last bucket, or on the right edge. */
  lemma ShiftExact(elapsed: int)
    requires elapsed > WINDOW
    ensures ShiftFor(elapsed) >= 1
    ensures WINDOW - SLOT < elapsed - ShiftFor(elapsed) * SLOT <= WINDOW
  {
  }

  lemma ShiftedTracks(w: Window, log: seq<Rec>, now: int, later: int)
    requires Tracks(w, log, now) && now <= later && w.origin.Some?
    requires later - w.origin.value > WINDOW && ShiftFor(later - w.origin.value) < COUNT
    ensures Tracks(Rotate(w, later), log, later)
  {
    var origin, shift := w.origin.value, ShiftFor(later - w.origin.value);
    var moved := Rotate(w, later);
    ShiftExact(later - origin);
    forall r | r in log ensures Placed(r, moved.origin.value, later) && r.at <= moved.origin.value + WINDOW {
      RotatePlaced(r, origin, now, later);
    }
    forall i | 0 <= i < COUNT ensures moved.slots[i] == Held(log, moved.origin.value + i * SLOT) {
      var place := moved.origin.value + i * SLOT;
      assert place == origin + (i + shift) * SLOT;
      if i + shift >= COUNT {
        forall r | r in log ensures r.place != place { assert Placed(r, origin, now); }
        HeldNone(log, place);
      }
    }
  }

  lemma ClearedTracks(w: Window, log: seq<Rec>, now: int, later: int)
    requires Tracks(w, log, now) && now <= later && w.origin.Some?
    requires later - w.origin.value > WINDOW && ShiftFor(later - w.origin.value) >= COUNT
    ensures Tracks(Rotate(w, later), log, later)
  {
    forall r | r in log ensures Placed(r, later, later) && r.place < later {
      RotatePlaced(r, w.origin.value, now, later);
    }
    forall i | 0 <= i < COUNT ensures NoSlots()[i] == Held(log, later + i * SLOT) {
      HeldNone(log, later + i * SLOT);
    }
  }

  /** Rotation keeps the buckets true to the record, whatever it drops. */
  lemma RotateTracks(w: Window, log: seq<Rec>, now: int, later: int)
    requires Tracks(w, log, now) && (w.origin.Some? ==> now <= later)
    ensures var r := Rotate(w, later);
            Tracks(r, log, later) && r.origin.Some? && r.origin.value <= later <= r.origin.value + WINDOW
  {
    if w.origin.Some? {
      if later - w.origin.value <= WINDOW {
        forall r | r in log ensures Placed(r, w.origin.value, later) {
          RotatePlaced(r, w.origin.value, now, later);
        }
      } else if ShiftFor(later - w.origin.value) < COUNT {
        ShiftExact(later - w.origin.value);
        ShiftedTracks(w, log, now, later);
      } else {
        ClearedTracks(w, log, now, later);
      }
    }
  }

  /** The record of a frame added at `now`. */
  function NewRec(w: Window, occupiedNs: int, now: int): Rec {
    var r := Rotate(w, now);
    Rec(now, r.origin.value + SlotIndex(r, now) * SLOT, occupiedNs, 0)
  }

  lemma HeldAppend(log: seq<Rec>, r: Rec, place: int)
    ensures Held(log + [r], place) == if r.place == place then Plus(Held(log, place), Weight(r)) else Held(log, place)
  {
  }

  lemma IndexInside(w: Window, now: int)
    requires w.origin.Some? && w.origin.value <= now <= w.origin.value + WINDOW
    ensures var idx := SlotIndex(w, now); var place := w.origin.value + idx * SLOT;
            0 <= idx < COUNT && place <= now <= place + SLOT && (place - w.origin.value) % SLOT == 0
  {
  }

  /** The window with one more frame in the bucket of `at`. */
  function Put(w: Window, occupiedNs: int, at: int): Window
    requires w.origin.Some? && w.origin.value <= at <= w.origin.value + WINDOW
  {
    var idx := SlotIndex(w, at);
    w.(slots := w.slots[idx := Plus(w.slots[idx], Slot(occupiedNs, 1))])
  }

  function PutRec(w: Window, occupiedNs: int, at: int): Rec
    requires w.origin.Some?
  {
    Rec(at, w.origin.value + SlotIndex(w, at) * SLOT, occupiedNs, 0)
  }

  /** Adding a frame at any time inside the window adds exactly its record. */
  lemma PutTracks(w: Window, log: seq<Rec>, now: int, occupiedNs: int, at: int)
    requires Tracks(w, log, now) && w.origin.Some? && occupiedNs > 0
    requires w.origin.value <= at <= now && at <= w.origin.value + WINDOW
    ensures Tracks(Put(w, occupiedNs, at), log + [PutRec(w, occupiedNs, at)], now)
  {
    var origin, rec, idx := w.origin.value, PutRec(w, occupiedNs, at), SlotIndex(w, at);
    IndexInside(w, at);
    forall q | q in log + [rec] ensures Placed(q, origin, now) && q.at <= origin + WINDOW {
      if q !in log { assert q == rec; }
    }
    forall i | 0 <= i < COUNT ensures Put(w, occupiedNs, at).slots[i] == Held(log + [rec], origin + i * SLOT) {
      HeldAppend(log, rec, origin + i * SLOT);
    }
  }

  /** Adding a frame adds exactly its record. */
  /** A frame from before the origin, when host time has gone back: within one bucket of it the frame is counted,
      in the first bucket, because the division truncates; further back it is not. */
  lemma BackwardsAdd(w: Window, occupiedNs: int, now: int)
    requires w.origin.Some? && now < w.origin.value && occupiedNs > 0
    ensures AddDuration(w, occupiedNs, now)
            == if now <= w.origin.value - SLOT then w
               else w.(slots := w.slots[0 := Plus(w.slots[0], Slot(occupiedNs, 1))])
  {
  }

  lemma AddTracks(w: Window, log: seq<Rec>, now: int, occupiedNs: int, later: int)
    requires Tracks(w, log, now) && (w.origin.Some? ==> now <= later) && occupiedNs > 0
    ensures var r := AddDuration(w, occupiedNs, later);
            Tracks(r, log + [NewRec(w, occupiedNs, later)], later)
            && r.origin.Some? && r.origin.value <= later <= r.origin.value + WINDOW
  {
    RotateTracks(w, log, now, later);
    IndexInside(Rotate(w, later), later);
    PutTracks(Rotate(w, later), log, later, occupiedNs, later);
  }

  // ---------- removal ----------

  /** The record with one more move. */
  function Moved(log: seq<Rec>, k: nat): seq<Rec>
    requires k < |log|
  {
    log[k := log[k].(moves := log[k].moves + 1)]
  }

  lemma {:induction false} HeldMoved(log: seq<Rec>, k: nat, place: int)
    requires k < |log| && log[k].moves == 0
    ensures Held(Moved(log, k), place)
            == if log[k].place == place then Minus(Held(log, place), Weight(log[k])) else Held(log, place)
  {
    var front := log[..|log| - 1];
    if k < |front| {
      HeldMoved(front, k, place);
      assert Moved(log, k)[..|log| - 1] == Moved(front, k);
    } else {
      assert Moved(log, k)[..|log| - 1] == front;
    }
  }

  lemma {:induction false} HeldNonNegative(log: seq<Rec>, place: int)
    requires forall r :: r in log ==> r.occupiedNs > 0
    ensures AtMost(EMPTY, Held(log, place))
  {
    if log != [] { HeldNonNegative(log[..|log| - 1], place); }
  }

  lemma {:induction false} HeldAtLeast(log: seq<Rec>, k: nat)
    requires k < |log| && forall r :: r in log ==> r.occupiedNs > 0
    ensures AtMost(Weight(log[k]), Held(log, log[k].place))
  {
    var front := log[..|log| - 1];
    if k < |front| {
      HeldAtLeast(front, k);
    } else {
      HeldNonNegative(front, log[k].place);
    }
  }

  /** Where a removal looks is the bucket that holds the record exactly when the record lies
      strictly before its bucket's right edge, or the window has not moved since and the clamp to
      the last bucket still applies. */
  lemma RemovalIndex(r: Rec, w: Window, now: int)
    requires w.origin.Some? && Placed(r, w.origin.value, now) && r.at <= w.origin.value + WINDOW
    requires r.place >= w.origin.value
    ensures w.origin.value + SlotIndex(w, r.at) * SLOT == r.place
            <==> r.at < r.place + SLOT || r.at == w.origin.value + WINDOW
  {
  }

  /** Removing a record that lies strictly before its bucket's right edge takes out exactly that
      record, however often the window moved in between, and nothing if it has already been
      dropped. */
  lemma RemoveTracks(w: Window, log: seq<Rec>, now: int, k: nat)
    requires Tracks(w, log, now) && k < |log| && log[k].moves == 0 && log[k].at < log[k].place + SLOT
    ensures Tracks(RemoveHost(w, log[k].at, log[k].occupiedNs), Moved(log, k), now)
  {
    var r, origin := log[k], w.origin.value;
    assert r in log && Placed(r, origin, now);
    forall q | q in Moved(log, k) ensures Placed(q, origin, now) && q.at <= origin + WINDOW {
      if q !in log { assert q == r.(moves := 1); }
    }
    if r.at >= origin {
      RemovalIndex(r, w, now);
      HeldAtLeast(log, k);
    }
    var removed := RemoveHost(w, r.at, r.occupiedNs);
    forall i | 0 <= i < COUNT ensures removed.slots[i] == Held(Moved(log, k), origin + i * SLOT) {
      HeldMoved(log, k, origin + i * SLOT);
    }
  }

  /** Removing at `later` the frame added at `now` leaves the buckets true to the record. */
  predicate RemovedExactly(w: Window, log: seq<Rec>, occupiedNs: int, now: int, later: int)
    requires occupiedNs > 0
  {
    var r := Rotate(AddDuration(w, occupiedNs, now), later);
    Tracks(RemoveHost(r, now, occupiedNs), Moved(log + [NewRec(w, occupiedNs, now)], |log|), later)
  }

  /** A frame can be removed exactly at every later time if and only if it was added strictly
      before the window's right edge, that is, the clock was not one whole window past the origin. */
  lemma RemovableIffInside(w: Window, log: seq<Rec>, before: int, occupiedNs: int, now: int)
    requires Tracks(w, log, before) && (w.origin.Some? ==> before <= now) && occupiedNs > 0
    ensures (forall later :: now <= later ==> RemovedExactly(w, log, occupiedNs, now, later))
            <==> now < Rotate(w, now).origin.value + WINDOW
  {
    var added, rec := AddDuration(w, occupiedNs, now), NewRec(w, occupiedNs, now);
    AddTracks(w, log, before, occupiedNs, now);
    if now < Rotate(w, now).origin.value + WINDOW {
      forall later | now <= later ensures RemovedExactly(w, log, occupiedNs, now, later) {
        RotateTracks(added, log + [rec], now, later);
        RemoveTracks(Rotate(added, later), log + [rec], later, |log|);
      }
    } else {
      RotateTracks(w, log, before, now);
      EdgeNotRemoved(added, log + [rec], now);
      assert !RemovedExactly(w, log, occupiedNs, now, now + 1);
    }
  }

  /** One nanosecond later the last bucket has moved down by one, and the removal misses it. */
  lemma EdgeMisses(w: Window, occupiedNs: int, now: int)
    requires w.origin == Some(now - WINDOW)
    ensures var r := Rotate(w, now + 1);
            && r.origin == Some(now - WINDOW + SLOT) && r.slots[COUNT - 2] == w.slots[COUNT - 1]
            && RemoveHost(r, now, occupiedNs) == r
  {
  }

  lemma BucketTells(w: Window, log: seq<Rec>, now: int, i: nat)
    requires w.origin.Some? && i < COUNT && w.slots[i] != Held(log, w.origin.value + i * SLOT)
    ensures !Tracks(w, log, now)
  {
  }

  /** The last bucket holds one frame more than the record with its last entry moved. */
  lemma EdgeBucket(w: Window, log: seq<Rec>, now: int)
    requires Tracks(w, log, now) && w.origin == Some(now - WINDOW)
    requires log != [] && log[|log| - 1].place == now - SLOT && log[|log| - 1].moves == 0
    ensures w.slots[COUNT - 1] != Held(Moved(log, |log| - 1), now - SLOT)
  {
    HeldMoved(log, |log| - 1, now - SLOT);
    assert now - WINDOW + (COUNT - 1) * SLOT == now - SLOT;
    assert w.slots[COUNT - 1] == Held(log, now - SLOT);
  }

  lemma EdgeNotRemoved(w: Window, log: seq<Rec>, now: int)
    requires Tracks(w, log, now) && w.origin == Some(now - WINDOW)
    requires log != [] && var r := log[|log| - 1];
             r.at == now && r.place == now - SLOT && r.moves == 0
    ensures var r := log[|log| - 1];
            !Tracks(RemoveHost(Rotate(w, now + 1), now, r.occupiedNs), Moved(log, |log| - 1), now + 1)
  {
    EdgeMisses(w, log[|log| - 1].occupiedNs, now);
    EdgeBucket(w, log, now);
    var moved := Rotate(w, now + 1);
    assert moved.origin.value + (COUNT - 2) * SLOT == now - SLOT;
    BucketTells(moved, Moved(log, |log| - 1), now + 1, COUNT - 2);
  }

  // ---------- the sum ----------

  predicate OnGrid(log: seq<Rec>, origin: int) {
    forall r :: r in log && r.place >= origin ==> (r.place - origin) % SLOT == 0
  }

  lemma InBucket(d: int, n: nat)
    requires 0 <= d && d % SLOT == 0
    ensures n * SLOT <= d < (n + 1) * SLOT <==> d == n * SLOT
  {
  }

  lemma {:induction false} SplitAt(log: seq<Rec>, from: int, mid: int, to: int)
    requires from <= mid <= to
    requires forall r :: r in log ==> (mid <= r.place < to <==> r.place == mid)
    ensures HeldBetween(log, from, to) == Plus(HeldBetween(log, from, mid), Held(log, mid))
  {
    if log != [] {
      assert log[|log| - 1] in log;
      SplitAt(log[..|log| - 1], from, mid, to);
    }
  }

  lemma NextBucket(log: seq<Rec>, origin: int, n: nat)
    requires OnGrid(log, origin)
    ensures HeldBetween(log, origin, origin + (n + 1) * SLOT)
            == Plus(HeldBetween(log, origin, origin + n * SLOT), Held(log, origin + n * SLOT))
  {
    var mid, to := origin + n * SLOT, origin + (n + 1) * SLOT;
    forall r | r in log ensures mid <= r.place < to <==> r.place == mid {
      if r.place >= origin { InBucket(r.place - origin, n); }
    }
    SplitAt(log, origin, mid, to);
  }

  lemma {:induction false} HeldBetweenNothing(log: seq<Rec>, from: int)
    ensures HeldBetween(log, from, from) == EMPTY
  {
    if log != [] { HeldBetweenNothing(log[..|log| - 1], from); }
  }

  lemma {:induction false} SumIsHeld(s: seq<Slot>, log: seq<Rec>, origin: int)
    requires OnGrid(log, origin)
    requires forall i :: 0 <= i < |s| ==> s[i] == Held(log, origin + i * SLOT)
    ensures Sum(s) == HeldBetween(log, origin, origin + |s| * SLOT)
  {
    if s == [] {
      HeldBetweenNothing(log, origin);
    } else {
      var front := s[..|s| - 1];
      SumIsHeld(front, log, origin);
      NextBucket(log, origin, |front|);
    }
  }

  lemma {:induction false} HeldWithin(log: seq<Rec>, origin: int, now: int)
    requires forall r :: r in log ==> Placed(r, origin, now)
    requires origin <= now <= origin + WINDOW
    ensures var held := HeldBetween(log, origin, origin + COUNT * SLOT);
            && AtMost(TotalWithin(log, now - WINDOW + SLOT, now), held)
            && AtMost(held, TotalWithin(log, now - WINDOW, now))
  {
    if log != [] {
      var r := log[|log| - 1];
      assert r in log;
      HeldWithin(log[..|log| - 1], origin, now);
    }
  }

  /** The bucket sum is exactly the records neither moved nor dropped. */
  lemma SumIsExact(w: Window, log: seq<Rec>, now: int)
    requires Tracks(w, log, now) && w.origin.Some?
    ensures Sum(w.slots) == HeldBetween(log, w.origin.value, w.origin.value + WINDOW)
  {
    SumIsHeld(w.slots, log, w.origin.value);
  }

  /** Those lie between the records of the last window less one bucket and the records of the
      last window. */
  lemma SumWithinOneBucket(w: Window, log: seq<Rec>, now: int)
    requires Tracks(w, log, now) && w.origin.Some? && now <= w.origin.value + WINDOW
    ensures AtMost(TotalWithin(log, now - WINDOW + SLOT, now), Sum(w.slots))
    ensures AtMost(Sum(w.slots), TotalWithin(log, now - WINDOW, now))
  {
    SumIsExact(w, log, now);
    HeldWithin(log, w.origin.value, now);
  }

  // ---------- sums ----------

  predicate NonNegative(s: seq<Slot>) { forall i :: 0 <= i < |s| ==> AtMost(EMPTY, s[i]) }

  lemma {:induction false} SumAppend(a: seq<Slot>, b: seq<Slot>)
    ensures Sum(a + b) == Plus(Sum(a), Sum(b))
  {
    if b == [] {
      assert a + b == a;
    } else {
      SumAppend(a, b[..|b| - 1]);
      assert (a + b)[..|a + b| - 1] == a + b[..|b| - 1];
    }
  }

  lemma {:induction false} SumNonNegative(s: seq<Slot>)
    requires NonNegative(s)
    ensures AtMost(EMPTY, Sum(s))
  {
    if s != [] { SumNonNegative(s[..|s| - 1]); }
  }

  lemma {:induction false} SumOfEmpty(s: seq<Slot>)
    requires forall i :: 0 <= i < |s| ==> s[i] == EMPTY
    ensures Sum(s) == EMPTY
  {
    if s != [] {
      var front := s[..|s| - 1];
      SumOfEmpty(front);
      assert s[|front|] == EMPTY;
    }
  }

  lemma NoSlotsSum()
    ensures Sum(NoSlots()) == EMPTY
  {
    SumOfEmpty(NoSlots());
  }

  lemma SumOne(x: Slot)
    ensures Sum([x]) == x
  {
    assert [x][..0] == [];
  }

  lemma SumUpdate(s: seq<Slot>, i: nat, more: Slot)
    requires i < |s|
    ensures Sum(s[i := Plus(s[i], more)]) == Plus(Sum(s), more)
  {
    var x := Plus(s[i], more);
    var left, right := s[..i], s[i + 1..];
    assert s == left + ([s[i]] + right) && s[i := x] == left + ([x] + right);
    SumAppend(left, [s[i]] + right);
    SumAppend([s[i]], right);
    SumAppend(left, [x] + right);
    SumAppend([x], right);
    SumOne(s[i]);
    SumOne(x);
  }
}
