/** The bit-timing search for an 80 MHz clock (driver/internal/backend/pcan.go:698-729). */
module PcanTiming {
  import opened Basics
  import opened Arith

  const CLOCK := 80_000_000
  const MAX_BRP := 1024
  const TARGET := 80

  datatype Timing = Timing(brp: int, tseg1: int, tseg2: int)

  datatype TimingError = NotRepresentable | NoValidTiming

  /** The segment limits of the phase being configured. */
  datatype Limits = Limits(maxTseg1: int, maxTseg2: int)

  /** The triple is within the limits and gives exactly the bit rate. */
  predicate Feasible(t: Timing, bitrate: nat, lim: Limits) {
    && 1 <= t.brp <= 1024 && 1 <= t.tseg1 <= lim.maxTseg1 && 1 <= t.tseg2 <= lim.maxTseg2
    && t.brp * (1 + t.tseg1 + t.tseg2) * bitrate == 80_000_000
  }

  /** Distance of the sample point from 80 %, in whole percent of the bit time. */
  function SampleError(t: Timing): int
    requires 1 + t.tseg1 + t.tseg2 > 0
  {
    var samplePoint := (1 + t.tseg1) * 100 / (1 + t.tseg1 + t.tseg2);
    if samplePoint < TARGET then TARGET - samplePoint else samplePoint - TARGET
  }

  /** The sample point lies in the percent `pct` of the bit time, counting the first quantum and the first
      segment before it; the error is how far that is from 80. */
  lemma SampleErrorExact(t: Timing, pct: int)
    requires 1 + t.tseg1 + t.tseg2 > 0
    requires pct * (1 + t.tseg1 + t.tseg2) <= 100 * (1 + t.tseg1) < (pct + 1) * (1 + t.tseg1 + t.tseg2)
    ensures SampleError(t) == if pct < 80 then 80 - pct else pct - 80
  {
    var n := 1 + t.tseg1 + t.tseg2;
    assert (pct + 1) * n == pct * n + n;
    DivModUnique((1 + t.tseg1) * 100, n, pct, (1 + t.tseg1) * 100 - pct * n);
  }

  /** Better sample point first, then the smaller prescaler, then the shorter second segment. */
  predicate NoWorse(a: Timing, b: Timing)
    requires 1 + a.tseg1 + a.tseg2 > 0 && 1 + b.tseg1 + b.tseg2 > 0
  {
    || SampleError(a) < SampleError(b)
    || (SampleError(a) == SampleError(b) && (a.brp < b.brp || (a.brp == b.brp && a.tseg2 <= b.tseg2)))
  }

  // ---------- the loop's view: prescaler and second segment, for a number of time quanta ----------

  predicate Divides(targetTQ: nat, brp: int) { brp >= 1 && targetTQ % brp == 0 }

  function CandidateOf(targetTQ: nat, brp: int, tseg2: int): Timing
    requires brp >= 1
  {
    Timing(brp, targetTQ / brp - 1 - tseg2, tseg2)
  }

  predicate Candidate(targetTQ: nat, lim: Limits, brp: int, tseg2: int) {
    && 1 <= brp <= MAX_BRP && Divides(targetTQ, brp) && 1 <= tseg2 <= lim.maxTseg2
    && 1 <= targetTQ / brp - 1 - tseg2 <= lim.maxTseg1
  }

  predicate Before(brp: int, tseg2: int, nextBrp: int, nextTseg2: int) {
    brp < nextBrp || (brp == nextBrp && tseg2 < nextTseg2)
  }

  /** `best` is the winner among the candidates visited before `(nextBrp, nextTseg2)`. */
  ghost predicate BestSoFar(best: Option<Timing>, targetTQ: nat, lim: Limits, nextBrp: int, nextTseg2: int) {
    && (best.Some? ==>
         && Candidate(targetTQ, lim, best.value.brp, best.value.tseg2)
         && best.value == CandidateOf(targetTQ, best.value.brp, best.value.tseg2)
         && Before(best.value.brp, best.value.tseg2, nextBrp, nextTseg2))
    && forall b, s :: Candidate(targetTQ, lim, b, s) && Before(b, s, nextBrp, nextTseg2) ==>
         best.Some? && NoWorse(best.value, CandidateOf(targetTQ, b, s))
  }

  lemma BestMoves(best: Option<Timing>, targetTQ: nat, lim: Limits, brp: int, tseg2: int)
    requires BestSoFar(best, targetTQ, lim, brp, tseg2) && !Candidate(targetTQ, lim, brp, tseg2)
    ensures BestSoFar(best, targetTQ, lim, brp, tseg2 + 1)
  {
  }

  /** A candidate replaces the best only with a strictly better sample point. */
  lemma BestMeets(best: Option<Timing>, targetTQ: nat, lim: Limits, brp: int, tseg2: int)
    requires BestSoFar(best, targetTQ, lim, brp, tseg2) && Candidate(targetTQ, lim, brp, tseg2)
    ensures var c := CandidateOf(targetTQ, brp, tseg2);
            var next := if best.None? || SampleError(c) < SampleError(best.value) then Some(c) else best;
            BestSoFar(next, targetTQ, lim, brp, tseg2 + 1)
  {
  }

  lemma BestNextBrp(best: Option<Timing>, targetTQ: nat, lim: Limits, brp: int, tseg2: int)
    requires BestSoFar(best, targetTQ, lim, brp, tseg2)
    requires forall s :: tseg2 <= s ==> !Candidate(targetTQ, lim, brp, s)
    ensures BestSoFar(best, targetTQ, lim, brp + 1, 1)
  {
  }

  /** The feasible triples are exactly the candidates. */
  lemma FeasibleIsCandidate(t: Timing, bitrate: nat, lim: Limits)
    requires bitrate > 0 && CLOCK % bitrate == 0
    ensures Feasible(t, bitrate, lim) <==>
            Candidate(CLOCK / bitrate, lim, t.brp, t.tseg2) && t == CandidateOf(CLOCK / bitrate, t.brp, t.tseg2)
  {
    var tq, n := CLOCK / bitrate, 1 + t.tseg1 + t.tseg2;
    if Feasible(t, bitrate, lim) {
      DivModUnique(CLOCK, bitrate, t.brp * n, 0);
      assert tq == n * t.brp;
      DivModUnique(tq, t.brp, n, 0);
    }
    if Candidate(tq, lim, t.brp, t.tseg2) && t == CandidateOf(tq, t.brp, t.tseg2) {
      assert n == tq / t.brp;
      assert tq == n * t.brp;
      assert t.brp * n * bitrate == tq * bitrate == CLOCK;
    }
  }

  lemma FeasibleIsRepresentable(t: Timing, bitrate: nat, lim: Limits)
    requires Feasible(t, bitrate, lim)
    ensures bitrate > 0 && CLOCK % bitrate == 0
  {
    var n := t.brp * (1 + t.tseg1 + t.tseg2);
    DivModUnique(CLOCK, bitrate, n, 0);
  }

  method FindPCANBitTiming(bitrate: nat, lim: Limits) returns (r: Result<Timing, TimingError>)
    ensures r.Ok? ==>
              && Feasible(r.value, bitrate, lim)
              && forall t :: Feasible(t, bitrate, lim) ==> NoWorse(r.value, t)
    ensures r.Err? ==> forall t :: !Feasible(t, bitrate, lim)
    ensures r == Err(NotRepresentable) <==> bitrate == 0 || CLOCK % bitrate != 0
  {
    if bitrate == 0 || CLOCK % bitrate != 0 {
      forall t ensures !Feasible(t, bitrate, lim) {
        if Feasible(t, bitrate, lim) { FeasibleIsRepresentable(t, bitrate, lim); }
      }
      return Err(NotRepresentable);
    }
    var targetTQ := CLOCK / bitrate;
    var best := Search(targetTQ, lim);
    if best.Some? { FeasibleIsCandidate(best.value, bitrate, lim); }
    forall t ensures Feasible(t, bitrate, lim) ==> best.Some? && NoWorse(best.value, t) {
      FeasibleIsCandidate(t, bitrate, lim);
      assert Feasible(t, bitrate, lim) ==> Before(t.brp, t.tseg2, MAX_BRP + 1, 1);
    }
    if best.None? { return Err(NoValidTiming); }
    return Ok(best.value);
  }

  method Search(targetTQ: nat, lim: Limits) returns (best: Option<Timing>)
    ensures BestSoFar(best, targetTQ, lim, MAX_BRP + 1, 1)
  {
    var bestError := 101;
    best := None;
    for brp := 1 to MAX_BRP + 1
      invariant BestSoFar(best, targetTQ, lim, brp, 1)
      invariant bestError == if best.Some? then SampleError(best.value) else 101
    {
      if targetTQ % brp != 0 {
        BestNextBrp(best, targetTQ, lim, brp, 1);
        continue;
      }
      var totalTQ := targetTQ / brp;
      var tseg2 := 1;
      while tseg2 <= lim.maxTseg2
        invariant 1 <= tseg2 <= Max(lim.maxTseg2, 0) + 1
        invariant BestSoFar(best, targetTQ, lim, brp, tseg2)
        invariant bestError == if best.Some? then SampleError(best.value) else 101
      {
        var tseg1 := totalTQ - 1 - tseg2;
        if tseg1 < 1 || tseg1 > lim.maxTseg1 {
          BestMoves(best, targetTQ, lim, brp, tseg2);
        } else {
          best, bestError := Consider(best, bestError, targetTQ, lim, brp, tseg2);
        }
        tseg2 := tseg2 + 1;
      }
      BestNextBrp(best, targetTQ, lim, brp, tseg2);
    }
  }

  /** One candidate of the inner loop. */
  method Consider(best: Option<Timing>, bestError: int, targetTQ: nat, lim: Limits, brp: int, tseg2: int)
    returns (newBest: Option<Timing>, newError: int)
    requires BestSoFar(best, targetTQ, lim, brp, tseg2) && Candidate(targetTQ, lim, brp, tseg2)
    requires bestError == if best.Some? then SampleError(best.value) else 101
    ensures BestSoFar(newBest, targetTQ, lim, brp, tseg2 + 1)
    ensures newError == if newBest.Some? then SampleError(newBest.value) else 101
  {
    var totalTQ := targetTQ / brp;
    var tseg1 := totalTQ - 1 - tseg2;
    BestMeets(best, targetTQ, lim, brp, tseg2);
    SampleErrorBound(Timing(brp, tseg1, tseg2));
    var samplePoint := (1 + tseg1) * 100 / totalTQ;
    var sampleError := samplePoint - TARGET;
    if sampleError < 0 { sampleError := -sampleError; }
    newBest, newError := best, bestError;
    if sampleError < bestError {
      newBest, newError := Some(Timing(brp, tseg1, tseg2)), sampleError;
    }
  }

  /** No sample point is 101 % away, so the first candidate always replaces the initial value. */
  lemma SampleErrorBound(t: Timing)
    requires t.tseg1 >= 1 && t.tseg2 >= 1
    ensures 0 <= SampleError(t) <= TARGET
  {
  }
}
