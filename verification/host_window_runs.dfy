/** The documented one-bucket edge error of the rolling window, over whole runs. */
module HostWindowRuns {
  import opened HostWindow

  /** One use of a window from which nothing is moved: a frame added, or the sum looked at. */
  datatype HostOp = Add(occupiedNs: int, at: int) | Look(at: int)

  function Apply(w: Window, op: HostOp): Window {
    match op
    case Add(occupiedNs, at) => AddDuration(w, occupiedNs, at)
    case Look(at) => Rotate(w, at)
  }

  function Run(ops: seq<HostOp>): Window {
    if ops == [] then Fresh else Apply(Run(ops[..|ops| - 1]), ops[|ops| - 1])
  }

  /** The clock handed to the window never goes back. */
  predicate Ordered(ops: seq<HostOp>) {
    forall i :: 0 < i < |ops| ==> ops[i - 1].at <= ops[i].at
  }

  /** Exact totals over a closed interval, from the operations alone. */
  function EventsWithin(ops: seq<HostOp>, from: int, to: int): Slot {
    if ops == [] then EMPTY
    else
      var op := ops[|ops| - 1];
      var rest := EventsWithin(ops[..|ops| - 1], from, to);
      if op.Add? && op.occupiedNs > 0 && from <= op.at <= to then Plus(rest, Slot(op.occupiedNs, 1)) else rest
  }

  function LogOf(ops: seq<HostOp>): seq<Rec> {
    if ops == [] then []
    else
      var front := ops[..|ops| - 1];
      LogStep(Run(front), LogOf(front), ops[|ops| - 1])
  }

  lemma {:induction false} LogTotals(ops: seq<HostOp>, from: int, to: int)
    ensures TotalWithin(LogOf(ops), from, to) == EventsWithin(ops, from, to)
  {
    if ops != [] {
      var front, log := ops[..|ops| - 1], LogOf(ops);
      LogTotals(front, from, to);
      if log != LogOf(front) { assert log[..|log| - 1] == LogOf(front); }
    }
  }

  function LogStep(w: Window, log: seq<Rec>, op: HostOp): seq<Rec> {
    if op.Add? && op.occupiedNs > 0 then log + [NewRec(w, op.occupiedNs, op.at)] else log
  }

  lemma ApplyTracks(w: Window, log: seq<Rec>, now: int, op: HostOp)
    requires Tracks(w, log, now) && (w.origin.Some? ==> now <= op.at)
    ensures Tracks(Apply(w, op), LogStep(w, log, op), op.at)
    ensures op.Look? ==> var r := Apply(w, op); r.origin.Some? && op.at <= r.origin.value + WINDOW
  {
    if op.Look? {
      RotateTracks(w, log, now, op.at);
    } else if op.occupiedNs > 0 {
      AddTracks(w, log, now, op.occupiedNs, op.at);
    } else if w.origin.Some? {
      LaterTracks(w, log, now, op.at);
    }
  }

  lemma {:induction false} RunTracks(ops: seq<HostOp>, now: int)
    requires Ordered(ops) && (ops != [] ==> ops[|ops| - 1].at <= now)
    ensures Tracks(Run(ops), LogOf(ops), now)
  {
    if ops != [] {
      var front, op := ops[..|ops| - 1], ops[|ops| - 1];
      RunTracks(front, op.at);
      ApplyTracks(Run(front), LogOf(front), op.at, op);
      if Run(ops).origin.Some? { LaterTracks(Run(ops), LogOf(ops), op.at, now); }
    }
  }

  /** Time passing alone changes nothing. */
  lemma LaterTracks(w: Window, log: seq<Rec>, now: int, later: int)
    requires Tracks(w, log, now) && w.origin.Some? && now <= later
    ensures Tracks(w, log, later)
  {
  }

  lemma OrderedPrefix(ops: seq<HostOp>, now: int)
    requires Ordered(ops + [Look(now)])
    ensures Ordered(ops) && (ops != [] ==> ops[|ops| - 1].at <= now)
  {
    var all := ops + [Look(now)];
    forall i | 0 < i < |ops| ensures ops[i - 1].at <= ops[i].at {
      assert all[i - 1].at <= all[i].at;
    }
    if ops != [] { assert all[|ops| - 1].at <= all[|ops|].at; }
  }

  /** After any sequence of additions and looks at non-decreasing times, the bucket sum (frames
      and nanoseconds alike) lies between the exact total over the last window less one bucket
      and the exact total over the last window. */
  lemma WindowErrorIsOneBucket(ops: seq<HostOp>, now: int)
    requires Ordered(ops + [Look(now)])
    ensures var sum := Sum(Run(ops + [Look(now)]).slots);
            && AtMost(EventsWithin(ops, now - 999_000_000, now), sum)
            && AtMost(sum, EventsWithin(ops, now - 1_000_000_000, now))
  {
    OrderedPrefix(ops, now);
    RunTracks(ops, now);
    ApplyTracks(Run(ops), LogOf(ops), now, Look(now));
    assert (ops + [Look(now)])[..|ops|] == ops;
    SumWithinOneBucket(Run(ops + [Look(now)]), LogOf(ops), now);
    LogTotals(ops, now - WINDOW + SLOT, now);
    LogTotals(ops, now - WINDOW, now);
  }
}
