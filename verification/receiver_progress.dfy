/** What keeps a reassembly going: data does so only a bounded number of times, empty consecutive
    frames for ever. */
module ReceiverProgress {
  import opened Basics
  import opened Framing
  import opened Pdu
  import opened IsoTpSpec
  import opened SessionInvariant
  import opened Reassembly

  /** An empty consecutive frame with the number the receiver expects. */
  function EmptyFrame(rx: Rx): RxEvent
    requires rx.seqNum <= 15
  {
    Arrives(CreateConsecutiveFrame([], rx.seqNum).value, true)
  }

  lemma EmptyFrameKeeps(env: Env, rx: Rx)
    requires RxInv(env, rx) && rx.state == WaitCF
    ensures var r := Feed(env, rx, EmptyFrame(rx)).s.rx;
            && RxInv(env, r) && r.state == WaitCF && r.buffer == rx.buffer && r.frameLen == rx.frameLen
            && r.seqNum == (rx.seqNum + 1) % 16
  {
    var none: Bytes := [];
    ConsecutiveFrameRoundTrip(none, rx.seqNum, none);
    var p := CreateConsecutiveFrame(none, rx.seqNum).value;
    assert p + none == p && none + none == none;
    FeedKeeps(env, rx, EmptyFrame(rx));
    assert rx.buffer + [] == rx.buffer;
  }

  /** The receiver after `n` empty frames, each with the number it expects: however many come, it
      waits with the same bytes. */
  function AfterEmpties(env: Env, rx: Rx, n: nat): (r: Rx)
    requires RxInv(env, rx) && rx.state == WaitCF
    ensures RxInv(env, r) && r.state == WaitCF && r.buffer == rx.buffer && r.frameLen == rx.frameLen
  {
    if n == 0 then rx
    else
      var before := AfterEmpties(env, rx, n - 1);
      EmptyFrameKeeps(env, before);
      Feed(env, before, EmptyFrame(before)).s.rx
  }

  // ---------- data ends it ----------

  function Missing(rx: Rx): int { rx.frameLen - |rx.buffer| }

  /** A consecutive frame with data and the number the receiver expects. */
  predicate CarriesData(rx: Rx, ev: RxEvent) {
    && ev.Arrives? && ParseFrame(ev.data).Ok?
    && var pdu := ParseFrame(ev.data).value;
       pdu.ConsecutiveFrame? && pdu.sequenceNumber == rx.seqNum && pdu.data != []
  }

  predicate Restarts(ev: RxEvent) {
    ev.Arrives? && ParseFrame(ev.data).Ok? && ParseFrame(ev.data).value.FirstFrame?
  }

  /** No event but a First Frame adds missing bytes, and accepted data removes some or ends the
      reassembly. */
  lemma DataProgresses(env: Env, rx: Rx, ev: RxEvent)
    requires RxInv(env, rx) && rx.state == WaitCF && !Restarts(ev)
    ensures var r := Feed(env, rx, ev).s.rx;
            && RxInv(env, r)
            && (r.state == WaitCF ==>
                  0 < Missing(r) <= Missing(rx) && (CarriesData(rx, ev) ==> Missing(r) < Missing(rx)))
  {
    FeedKeeps(env, rx, ev);
  }

  /** States of one reassembly: it waits until the last state, and no First Frame restarts it. */
  ghost predicate OneReassembly(env: Env, rxs: seq<Rx>, evs: seq<RxEvent>) {
    && |rxs| == |evs| + 1 && RxInv(env, rxs[0])
    && forall i :: 0 <= i < |evs| ==>
         && rxs[i].state == WaitCF && !Restarts(evs[i])
         && RxInv(env, rxs[i]) && rxs[i + 1] == Feed(env, rxs[i], evs[i]).s.rx
  }

  function DataFrames(rxs: seq<Rx>, evs: seq<RxEvent>): nat
    requires |rxs| == |evs| + 1
  {
    if evs == [] then 0
    else
      var n := |evs| - 1;
      DataFrames(rxs[..n + 1], evs[..n]) + if CarriesData(rxs[n], evs[n]) then 1 else 0
  }

  /** Whatever arrives, a reassembly accepts at most as many non-empty frames as bytes were missing. */
  lemma {:induction false} DataFramesBounded(env: Env, rxs: seq<Rx>, evs: seq<RxEvent>)
    requires OneReassembly(env, rxs, evs) && rxs[0].state == WaitCF
    ensures RxInv(env, rxs[|evs|])
    ensures DataFrames(rxs, evs) + (if rxs[|evs|].state == WaitCF then Missing(rxs[|evs|]) else 0) <= Missing(rxs[0])
    decreases |evs|
  {
    if evs != [] {
      var n := |evs| - 1;
      DataFramesBounded(env, rxs[..n + 1], evs[..n]);
      DataProgresses(env, rxs[n], evs[n]);
    }
  }
}
