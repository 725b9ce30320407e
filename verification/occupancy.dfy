/** Bus time of a frame: the model's own bit counts, and the split of a measured bit total
    (driver/internal/backend/busload.go:446-498). */
module Occupancy {
  import opened Basics
  import opened Arith
  import opened BitCounter
  import Can

  const NS_PER_SECOND := 1_000_000_000
  /** Bit rates are 32-bit unsigned. */
  const MAX_BITRATE := 0x1_0000_0000

  function BitsToDuration(bits: int, bitrate: nat): nat {
    if bits <= 0 || bitrate == 0 then 0 else bits * NS_PER_SECOND / bitrate
  }

  function FrameBitCounts(f: Can.Frame): (int, int) {
    if f.fd then FDFrameBits(f) else (ClassicFrameBits(f), 0)
  }

  function FrameOccupancy(f: Can.Frame, nominalBitrate: nat, dataBitrate: nat): nat {
    if nominalBitrate == 0 then 0
    else
      var (arbBits, dataBits) := FrameBitCounts(f);
      var occupied := BitsToDuration(arbBits, nominalBitrate);
      if dataBits > 0 && dataBitrate > 0 then occupied + BitsToDuration(dataBits, dataBitrate) else occupied
  }

  /** The arbitration bits of a measured total, in the proportion `arb : est - arb`, before clamping. */
  function ArbShare(totalBits: nat, arb: nat, est: nat): nat
    requires est > 0
  {
    (totalBits * arb + est / 2) / est
  }

  /** Arbitration and data bits of a measured total, after both clamps. */
  function Split(totalBits: nat, arb: nat, est: nat): (int, int)
    requires est > 0
  {
    var share := ArbShare(totalBits, arb, est);
    var low := if share < 1 then 1 else share;
    var clamped := if low > totalBits then totalBits else low;
    (clamped, totalBits - clamped)
  }

  function FrameOccupancyFromBitCount(f: Can.Frame, totalBits: int, nominalBitrate: nat, dataBitrate: nat): nat {
    if totalBits <= 0 || nominalBitrate == 0 then 0
    else if !f.fd || !f.brs || dataBitrate == 0 then BitsToDuration(totalBits, nominalBitrate)
    else
      var (arb, data) := FrameBitCounts(f);
      if arb + data <= 0 || data <= 0 || arb < 0 then BitsToDuration(totalBits, nominalBitrate)
      else
        var (arbBits, dataBits) := Split(totalBits, arb, arb + data);
        BitsToDuration(arbBits, nominalBitrate) + BitsToDuration(dataBits, dataBitrate)
  }

  // ---------- floor division ----------

  lemma DivBounds(x: nat, m: nat)
    requires m > 0
    ensures (x / m) * m <= x < (x / m) * m + m
  {
  }

  lemma DivAtLeast(x: nat, m: nat, q: nat)
    requires m > 0 && q * m <= x
    ensures x / m >= q
  {
    DivBounds(x, m);
    if x / m < q { MulMono(x / m + 1, q, m); }
  }

  /** Rounding down twice loses at most one unit against rounding down once. */
  lemma DivAdd(x: nat, y: nat, m: nat)
    requires m > 0
    ensures x / m + y / m <= (x + y) / m <= x / m + y / m + 1
  {
    var q, r := x / m + y / m, x % m + y % m;
    assert q * m == (x / m) * m + (y / m) * m;
    if r < m {
      DivModUnique(x + y, m, q, r);
    } else {
      DivModUnique(x + y, m, q + 1, r - m);
    }
  }

  lemma DivAnti(x: nat, small: nat, large: nat)
    requires 0 < small <= large
    ensures x / large <= x / small
  {
    DivBounds(x, large);
    MulMono(small, large, x / large);
    DivAtLeast(x, small, x / large);
  }

  lemma DurationAdds(a: nat, b: nat, bitrate: nat)
    requires bitrate > 0
    ensures var sum := BitsToDuration(a, bitrate) + BitsToDuration(b, bitrate);
            sum <= BitsToDuration(a + b, bitrate) <= sum + 1
  {
    DivAdd(a * NS_PER_SECOND, b * NS_PER_SECOND, bitrate);
  }

  lemma SlowerIsLonger(bits: nat, nominalBitrate: nat, dataBitrate: nat)
    requires 0 < nominalBitrate <= dataBitrate
    ensures BitsToDuration(bits, dataBitrate) <= BitsToDuration(bits, nominalBitrate)
  {
    if bits > 0 { DivAnti(bits * NS_PER_SECOND, nominalBitrate, dataBitrate); }
  }

  // ---------- properties ----------

  /** As many bits as the bit rate says take exactly one second, `k` times as many take `k`. */
  lemma RateIsPerSecond(bitrate: nat, k: nat)
    requires bitrate > 0
    ensures BitsToDuration(k * bitrate, bitrate) == k * 1_000_000_000
  {
    MulMono(0, k, bitrate);
    assert k * bitrate * NS_PER_SECOND == (k * NS_PER_SECOND) * bitrate;
    DivModUnique(k * bitrate * NS_PER_SECOND, bitrate, k * NS_PER_SECOND, 0);
  }

  /** The model's counts: at least 47 bits in all, at least 29 of them at the nominal rate, and
      data-phase bits exactly for a rate switch. */
  lemma FrameCountBounds(f: Can.Frame)
    ensures var (arb, data) := FrameBitCounts(f);
            && arb + data >= 47 && arb >= 29
            && (if f.fd && f.brs then data >= 33 else data == 0)
  {
    ClassicBounds(f);
    FDBounds(f);
  }

  /** A frame without a rate switch takes its bits at the nominal rate, whatever the data rate. One with a switch
      takes its data phase at the data rate and between 29 and 33 bits at the nominal one. */
  lemma PhasesAtTheirRates(f: Can.Frame, nominalBitrate: nat, dataBitrate: nat)
    requires nominalBitrate > 0 && dataBitrate > 0
    ensures var (arb, data), time := FrameBitCounts(f), FrameOccupancy(f, nominalBitrate, dataBitrate);
            if f.fd && f.brs
            then BitsToDuration(29, nominalBitrate) <= time - BitsToDuration(data, dataBitrate)
                 <= BitsToDuration(33, nominalBitrate)
            else time == BitsToDuration(arb, nominalBitrate)
  {
    FrameCountBounds(f);
    FDBounds(f);
    var (arb, data) := FrameBitCounts(f);
    if f.fd && f.brs {
      DurationAdds(29, arb - 29, nominalBitrate);
      DurationAdds(arb, 33 - arb, nominalBitrate);
    }
  }

  lemma Rounding(p: nat, est: nat, limit: nat)
    requires est > 0 && p <= limit * est
    ensures var share := (p + est / 2) / est;
            && 2 * p - est <= 2 * (share * est) <= 2 * p + est
            && share <= limit
            && (share < 1 <==> p < est - est / 2)
  {
    var share := (p + est / 2) / est;
    DivBounds(p + est / 2, est);
    WithinHalf(p, est, share * est);
    assert (limit + 1) * est == limit * est + est;
    if share > limit { MulMono(limit + 1, share, est); }
    if share >= 1 { MulMono(1, share, est); }
  }

  lemma WithinHalf(p: nat, est: nat, rounded: int)
    requires rounded <= p + est / 2 < rounded + est
    ensures 2 * p - est <= 2 * rounded <= 2 * p + est
  {
  }

  /** The split of a measured total never loses a bit, is never negative, and before clamping is
      within half a bit of the exact proportion. The upper clamp never acts; the lower one acts
      only when the exact share is below half a bit. */
  lemma SplitIsProportional(totalBits: nat, arb: nat, est: nat)
    requires totalBits > 0 && arb <= est && est > 0
    ensures var share := ArbShare(totalBits, arb, est);
            && 2 * (totalBits * arb) - est <= 2 * (share * est) <= 2 * (totalBits * arb) + est
            && share <= totalBits
            && (share < 1 <==> totalBits * arb < est - est / 2)
    ensures var (arbBits, dataBits) := Split(totalBits, arb, est);
            && arbBits + dataBits == totalBits && arbBits >= 1 && dataBits >= 0
            && arbBits == Max(ArbShare(totalBits, arb, est), 1)
  {
    MulMono(arb, est, totalBits);
    Rounding(totalBits * arb, est, totalBits);
  }

  /** A total equal to the model's own is split into the model's own phases. */
  lemma OwnTotalSplits(arb: nat, est: nat)
    requires 1 <= arb <= est
    ensures Split(est, arb, est) == (arb, est - arb)
  {
    DivModUnique(est * arb + est / 2, est, arb, est / 2);
  }

  /** With the model's own total, the measured occupancy is exactly the model's, except when a
      rate-switching frame meets a missing data bit rate: then the model drops the data phase. */
  lemma MeasuredEqualsModel(f: Can.Frame, nominalBitrate: nat, dataBitrate: nat)
    requires nominalBitrate < MAX_BITRATE
    ensures var (arb, data) := FrameBitCounts(f);
            FrameOccupancyFromBitCount(f, arb + data, nominalBitrate, dataBitrate)
            == FrameOccupancy(f, nominalBitrate, dataBitrate)
            <==> nominalBitrate == 0 || dataBitrate > 0 || !(f.fd && f.brs)
  {
    FrameCountBounds(f);
    var (arb, data) := FrameBitCounts(f);
    if nominalBitrate > 0 && f.fd && f.brs {
      OwnTotalSplits(arb, arb + data);
      if dataBitrate == 0 {
        DurationAdds(arb, data, nominalBitrate);
        DivAtLeast(data * NS_PER_SECOND, nominalBitrate, 1);
      }
    }
  }

  /** For a data rate at least as fast, the measured occupancy lies between the time of all bits
      at the data rate, less one nanosecond of rounding, and the time of all bits at the nominal
      rate. */
  lemma MeasuredBetweenRates(f: Can.Frame, totalBits: int, nominalBitrate: nat, dataBitrate: nat)
    requires 0 < nominalBitrate <= dataBitrate
    ensures BitsToDuration(totalBits, dataBitrate) - 1
            <= FrameOccupancyFromBitCount(f, totalBits, nominalBitrate, dataBitrate)
            <= BitsToDuration(totalBits, nominalBitrate)
  {
    if totalBits > 0 {
      SlowerIsLonger(totalBits, nominalBitrate, dataBitrate);
      FrameCountBounds(f);
      var (arb, data) := FrameBitCounts(f);
      if f.fd && f.brs {
        SplitIsProportional(totalBits, arb, arb + data);
        var (arbBits, dataBits) := Split(totalBits, arb, arb + data);
        SlowerIsLonger(arbBits, nominalBitrate, dataBitrate);
        SlowerIsLonger(dataBits, nominalBitrate, dataBitrate);
        DurationAdds(arbBits, dataBits, nominalBitrate);
        DurationAdds(arbBits, dataBits, dataBitrate);
      }
    }
  }

  /** Every frame occupies the bus for some time at any configured 32-bit rate, so no recorded
      frame is skipped by the meter's "nothing to add" guard. */
  lemma OccupancyIsPositive(f: Can.Frame, nominalBitrate: nat, dataBitrate: nat)
    requires 0 < nominalBitrate < MAX_BITRATE
    ensures FrameOccupancy(f, nominalBitrate, dataBitrate) >= 6
  {
    FrameCountBounds(f);
    var (arb, _) := FrameBitCounts(f);
    DivAtLeast(arb * NS_PER_SECOND, nominalBitrate, 6);
  }
}
