/** Why the lossless link is needed across payloads: over a link that loses frames of the data
    direction and repeats a flow control, the consecutive frame of one payload completes another. */
module LossyMixing {
  import opened Basics
  import opened Framing
  import opened Pdu
  import opened Link
  import opened IsoTpSpec
  import opened SessionInvariant
  import opened Direction
  import opened Network
  import Can

  /** Two sessions, the frames on the way in each direction, and what end B delivered. */
  datatype Wire = Wire(a: Session, b: Session, ab: seq<Can.Frame>, ba: seq<Can.Frame>, delivered: seq<Bytes>)

  const NewWire := Wire(NewSession, NewSession, [], [], [])

  /** `Loses` drops the oldest data frame; `HearsFlow(true)` hears a flow control that the link
      will repeat. */
  datatype WireMove = Starts(payload: Bytes) | Sends | Hears | HearsFlow(again: bool) | Loses

  function Put(env: Env, q: seq<Can.Frame>, frames: seq<LinkFrame>): seq<Can.Frame> {
    if frames == [] then q
    else match ToCANFrame(frames[0], env.brs)
         case Err(_) => q
         case Ok(f) => q + [Carry(f)]
  }

  predicate CanMove(es: Env, er: Env, w: Wire, m: WireMove) {
    match m
    case Starts(p) => w.a.tx.state == Idle && |p| <= es.cfg.maxPayloadSize && Sendable(es, p)
    case Sends => w.a.tx.stTimer
    case Hears => w.ab != [] && Safe(w.b)
    case HearsFlow(_) => w.ba != [] && Safe(w.a)
    case Loses => w.ab != []
  }

  /** One end hears a frame. */
  function HearFrame(env: Env, s: Session, f: Can.Frame): Out
    requires Safe(s)
  {
    match FromCANFrame(f)
    case None => Out(s, [], [], [])
    case Some(msg) => Step(env, s, Incoming(msg, true))
  }

  function Moved(es: Env, er: Env, w: Wire, m: WireMove): Wire
    requires CanMove(es, er, w, m)
  {
    match m
    case Starts(p) =>
      var o := InitiateTx(es, w.a.tx, p);
      w.(a := w.a.(tx := o.tx), ab := Put(es, w.ab, o.frames))
    case Sends =>
      var o := STminTimeout(es, w.a.tx);
      w.(a := w.a.(tx := o.tx), ab := Put(es, w.ab, o.frames))
    case Hears =>
      var o := HearFrame(er, w.b, w.ab[0]);
      w.(b := o.s, ab := w.ab[1..], ba := Put(er, w.ba, o.frames), delivered := w.delivered + o.deliveries)
    case HearsFlow(again) =>
      var o := HearFrame(es, w.a, w.ba[0]);
      w.(a := o.s, ba := if again then w.ba else w.ba[1..])
    case Loses => w.(ab := w.ab[1..])
  }

  function PlayWire(es: Env, er: Env, w: Wire, moves: seq<WireMove>): Option<Wire>
    decreases |moves|
  {
    if moves == [] then Some(w)
    else if CanMove(es, er, w, moves[0]) then PlayWire(es, er, Moved(es, er, w, moves[0]), moves[1..])
    else None
  }

  /** The payload is sent as a First Frame and one consecutive frame, and the receiver accepts it. */
  predicate TwoFrames(es: Env, er: Env, p: Bytes) {
    && Sendable(es, p) && |p| <= es.cfg.maxPayloadSize && |p| <= er.cfg.maxPayloadSize
    && !FitsSingleFrame(es, |p|) && |p| <= FirstChunkSize(es, |p|) + ChunkSize(es)
  }

  // ---------- single moves ----------

  /** The frame is the First Frame of `p`. */
  predicate IsFirst(es: Env, er: Env, f: Can.Frame, p: Bytes) {
    var n := FirstChunkSize(es, |p|);
    0 < n < |p| && Decoded(er, f) == Some(FirstFrame(|p|, p[..n]))
  }

  /** The frame is the consecutive frame that completes `p`. */
  predicate IsRest(es: Env, er: Env, f: Can.Frame, p: Bytes) {
    var n, pdu := FirstChunkSize(es, |p|), Decoded(er, f);
    && 0 < n < |p| && pdu.Some? && pdu.value.ConsecutiveFrame? && pdu.value.sequenceNumber == 1
    && p[n..] <= pdu.value.data
  }

  predicate IsFlow(es: Env, f: Can.Frame) {
    var pdu := Decoded(es, f);
    pdu.Some? && pdu.value.FlowControlFrame? && pdu.value.flowStatus == CONTINUE_TO_SEND
  }

  lemma StartsFirst(es: Env, er: Env, w: Wire, p: Bytes) returns (f: Can.Frame)
    requires Paired(es, er) && TwoFrames(es, er, p) && TxInv(es, w.a.tx) && w.a.tx.state == Idle
    ensures CanMove(es, er, w, Starts(p)) && IsFirst(es, er, f, p)
    ensures var v := Moved(es, er, w, Starts(p));
            && v == w.(a := v.a, ab := w.ab + [f]) && v.a.rx == w.a.rx && TxInv(es, v.a.tx)
            && v.a.tx.state == WaitFC && v.a.tx.buffer == p[FirstChunkSize(es, |p|)..] && v.a.tx.seqNum == 1
  {
    InitiateTxKeeps(es, w.a.tx, p);
    FirstFrameArrives(es, er, p);
    var n := FirstChunkSize(es, |p|);
    var data := CreateFirstFrame(p[..n], |p|, FrameDataLength(es.fd)).value;
    f := Carry(ToCANFrame(DataMsg(es, data), es.brs).value);
  }

  lemma HearsFirst(es: Env, er: Env, w: Wire, f: Can.Frame, p: Bytes) returns (fc: Can.Frame)
    requires Matched(er, es) && !er.cfg.manualFlowControl && |p| <= er.cfg.maxPayloadSize
    requires w.ab == [f] && IsFirst(es, er, f, p) && w.b == NewSession && w.ba == []
    ensures CanMove(es, er, w, Hears) && IsFlow(es, fc)
    ensures var v := Moved(es, er, w, Hears);
            && v == w.(b := v.b, ab := [], ba := [fc])
            && v.b.rx.state == WaitCF && v.b.rx.frameLen == |p| && v.b.rx.seqNum == 1
            && v.b.rx.buffer == p[..FirstChunkSize(es, |p|)]
  {
    FlowControlArrives(er, es);
    fc := Carry(ToCANFrame(FlowControlMsgs(er)[0], er.brs).value);
    assert w.delivered + [] == w.delivered;
  }

  lemma HearsGo(es: Env, er: Env, w: Wire, fc: Can.Frame, again: bool)
    requires w.ba == [fc] && IsFlow(es, fc) && Safe(w.a) && TxInv(es, w.a.tx) && w.a.tx.state == WaitFC
    ensures CanMove(es, er, w, HearsFlow(again))
    ensures var v := Moved(es, er, w, HearsFlow(again));
            && v == w.(a := v.a, ba := if again then [fc] else []) && v.a.rx == w.a.rx && TxInv(es, v.a.tx)
            && v.a.tx.state == Transmit && v.a.tx.stTimer
            && v.a.tx.buffer == w.a.tx.buffer && v.a.tx.seqNum == w.a.tx.seqNum
  {
  }

  /** The only consecutive frame leaves, and the sender is done. */
  lemma SendsRest(es: Env, er: Env, w: Wire, p: Bytes) returns (f: Can.Frame)
    requires Paired(es, er) && TwoFrames(es, er, p) && TxInv(es, w.a.tx) && w.a.tx.stTimer
    requires 0 < FirstChunkSize(es, |p|) < |p|
    requires w.a.tx.buffer == p[FirstChunkSize(es, |p|)..] && w.a.tx.seqNum == 1
    ensures CanMove(es, er, w, Sends) && IsRest(es, er, f, p)
    ensures var v := Moved(es, er, w, Sends);
            v == w.(a := v.a, ab := w.ab + [f]) && v.a.rx == w.a.rx && TxInv(es, v.a.tx) && v.a.tx.state == Idle
  {
    var rest := w.a.tx.buffer;
    TransmitShape(es, w.a.tx);
    STminTimeoutKeeps(es, w.a.tx);
    assert rest[..|rest|] == rest;
    ConsecutiveFrameArrives(es, er, rest, 1);
    f := Carry(ToCANFrame(DataMsg(es, CreateConsecutiveFrame(rest, 1).value), es.brs).value);
  }

  /** The receiver completes what it holds with the frame of the other payload. */
  lemma HearsOther(es: Env, er: Env, w: Wire, f: Can.Frame, p: Bytes, q: Bytes)
    requires |p| == |q| && w.ab == [f] && IsRest(es, er, f, q)
    requires RxInv(er, w.b.rx) && w.b.rx.state == WaitCF && w.b.rx.frameLen == |p| && w.b.rx.seqNum == 1
    requires w.b.rx.buffer == p[..FirstChunkSize(es, |p|)]
    ensures CanMove(es, er, w, Hears)
    ensures var n := FirstChunkSize(es, |p|);
            Moved(es, er, w, Hears).delivered == w.delivered + [p[..n] + q[n..]]
  {
    var n := FirstChunkSize(es, |p|);
    var data := Decoded(er, f).value.data;
    assert data[..|p| - n] == q[n..];
  }

  lemma {:induction false} PlayOn(es: Env, er: Env, w: Wire, first: seq<WireMove>, second: seq<WireMove>)
    requires PlayWire(es, er, w, first).Some?
    ensures PlayWire(es, er, w, first + second) == PlayWire(es, er, PlayWire(es, er, w, first).value, second)
    decreases |first|
  {
    if first == [] {
      assert first + second == second;
    } else {
      var m := first[0];
      PlayOn(es, er, Moved(es, er, w, m), first[1..], second);
      assert (first + second)[0] == m && (first + second)[1..] == first[1..] + second;
    }
  }

  /** One more move. */
  lemma Play(es: Env, er: Env, w: Wire, moves: seq<WireMove>, v: Wire, m: WireMove)
    requires PlayWire(es, er, w, moves) == Some(v) && CanMove(es, er, v, m)
    ensures PlayWire(es, er, w, moves + [m]) == Some(Moved(es, er, v, m))
  {
    PlayOn(es, er, w, moves, [m]);
    assert [m][1..] == [];
  }

  // ---------- the run ----------

  /** The receiver holds the first chunk of `p`; of `p` nothing else is left anywhere, but the flow
      control will be heard once more. */
  predicate HoldsFirst(es: Env, er: Env, w: Wire, p: Bytes, fc: Can.Frame) {
    && TxInv(es, w.a.tx) && w.a.tx.state == Idle && Safe(w.a) && w.ab == [] && w.ba == [fc] && IsFlow(es, fc)
    && RxInv(er, w.b.rx) && w.b.rx.state == WaitCF && w.b.rx.frameLen == |p| && w.b.rx.seqNum == 1
    && FirstChunkSize(es, |p|) <= |p| && w.b.rx.buffer == p[..FirstChunkSize(es, |p|)] && w.delivered == []
  }

  lemma Opening(es: Env, er: Env, p: Bytes) returns (w: Wire, fc: Can.Frame)
    requires Connected(es, er) && !er.cfg.manualFlowControl && TwoFrames(es, er, p)
    ensures PlayWire(es, er, NewWire, [Starts(p), Hears]) == Some(w)
    ensures w.ab == [] && w.ba == [fc] && IsFlow(es, fc) && w.delivered == [] && w.a.rx == IdleRx
    ensures TxInv(es, w.a.tx) && w.a.tx.state == WaitFC && w.a.tx.seqNum == 1
    ensures w.a.tx.buffer == p[FirstChunkSize(es, |p|)..] && 0 < FirstChunkSize(es, |p|) < |p|
    ensures RxInv(er, w.b.rx) && w.b.rx.state == WaitCF && w.b.rx.frameLen == |p| && w.b.rx.seqNum == 1
    ensures w.b.rx.buffer == p[..FirstChunkSize(es, |p|)]
  {
    var ff := StartsFirst(es, er, NewWire, p);
    var w1 := Moved(es, er, NewWire, Starts(p));
    fc := HearsFirst(es, er, w1, ff, p);
    FirstFrameKeeps(er, IdleRx, |p|, p[..FirstChunkSize(es, |p|)]);
    w := Moved(es, er, w1, Hears);
    Play(es, er, NewWire, [], NewWire, Starts(p));
    Play(es, er, NewWire, [Starts(p)], w1, Hears);
    assert [] + [Starts(p)] == [Starts(p)] && [Starts(p)] + [Hears] == [Starts(p), Hears];
  }

  /** A flow control is heard, and the rest of the payload leaves. */
  lemma Closing(es: Env, er: Env, w: Wire, p: Bytes, fc: Can.Frame, again: bool) returns (v: Wire, f: Can.Frame)
    requires Connected(es, er) && TwoFrames(es, er, p) && 0 < FirstChunkSize(es, |p|) < |p|
    requires w.ab == [] && w.ba == [fc] && IsFlow(es, fc) && Safe(w.a)
    requires TxInv(es, w.a.tx) && w.a.tx.state == WaitFC && w.a.tx.seqNum == 1
    requires w.a.tx.buffer == p[FirstChunkSize(es, |p|)..]
    ensures PlayWire(es, er, w, [HearsFlow(again), Sends]) == Some(v)
    ensures v == w.(a := v.a, ab := [f], ba := if again then [fc] else []) && IsRest(es, er, f, p)
    ensures TxInv(es, v.a.tx) && v.a.tx.state == Idle && v.a.rx == w.a.rx
  {
    HearsGo(es, er, w, fc, again);
    var w1 := Moved(es, er, w, HearsFlow(again));
    f := SendsRest(es, er, w1, p);
    v := Moved(es, er, w1, Sends);
    Play(es, er, w, [], w, HearsFlow(again));
    Play(es, er, w, [HearsFlow(again)], w1, Sends);
    assert [] + [HearsFlow(again)] == [HearsFlow(again)];
    assert [HearsFlow(again)] + [Sends] == [HearsFlow(again), Sends];
  }

  /** The first payload's only consecutive frame is lost. */
  function FirstHalf(p: Bytes): seq<WireMove> { [Starts(p), Hears] + [HearsFlow(true), Sends] + [Loses] }

  lemma LosesFirst(es: Env, er: Env, p: Bytes) returns (w: Wire, fc: Can.Frame)
    requires Connected(es, er) && !er.cfg.manualFlowControl && TwoFrames(es, er, p)
    ensures PlayWire(es, er, NewWire, FirstHalf(p)) == Some(w) && HoldsFirst(es, er, w, p, fc)
  {
    var w1;
    w1, fc := Opening(es, er, p);
    var w2, f := Closing(es, er, w1, p, fc, true);
    PlayOn(es, er, NewWire, [Starts(p), Hears], [HearsFlow(true), Sends]);
    Play(es, er, NewWire, [Starts(p), Hears] + [HearsFlow(true), Sends], w2, Loses);
    w := Moved(es, er, w2, Loses);
  }

  /** The second payload's First Frame is lost, its consecutive frame is heard. */
  function SecondHalf(q: Bytes): seq<WireMove> { [Starts(q)] + [Loses] + [HearsFlow(false), Sends] + [Hears] }

  lemma LosesSecond(es: Env, er: Env, w: Wire, p: Bytes, q: Bytes, fc: Can.Frame) returns (v: Wire)
    requires Connected(es, er) && TwoFrames(es, er, q) && |p| == |q| && HoldsFirst(es, er, w, p, fc)
    ensures PlayWire(es, er, w, SecondHalf(q)) == Some(v)
    ensures var n := FirstChunkSize(es, |p|); n <= |p| && v.delivered == [p[..n] + q[n..]]
  {
    var ff := StartsFirst(es, er, w, q);
    var w1 := Moved(es, er, w, Starts(q));
    Play(es, er, w, [], w, Starts(q));
    assert [] + [Starts(q)] == [Starts(q)];
    Play(es, er, w, [Starts(q)], w1, Loses);
    var w2 := Moved(es, er, w1, Loses);
    var w3, f := Closing(es, er, w2, q, fc, false);
    PlayOn(es, er, w, [Starts(q)] + [Loses], [HearsFlow(false), Sends]);
    HearsOther(es, er, w3, f, p, q);
    Play(es, er, w, [Starts(q)] + [Loses] + [HearsFlow(false), Sends], w3, Hears);
    v := Moved(es, er, w3, Hears);
  }

  /** For any two payloads of the same length that take a First Frame and one consecutive frame: a link
      that loses the consecutive frame of the first and the First Frame of the second and repeats one
      flow control delivers the beginning of the first with the end of the second, which is neither
      when they differ in both parts. */
  lemma LossMixesPayloads(es: Env, er: Env, p: Bytes, q: Bytes) returns (w: Wire)
    requires Connected(es, er) && !er.cfg.manualFlowControl
    requires TwoFrames(es, er, p) && TwoFrames(es, er, q) && |p| == |q|
    ensures PlayWire(es, er, NewWire, FirstHalf(p) + SecondHalf(q)) == Some(w)
    ensures var n := FirstChunkSize(es, |p|);
            && n <= |p| && w.delivered == [p[..n] + q[n..]]
            && (p[..n] != q[..n] && p[n..] != q[n..] ==> w.delivered[0] != p && w.delivered[0] != q)
  {
    var v, fc := LosesFirst(es, er, p);
    w := LosesSecond(es, er, v, p, q, fc);
    PlayOn(es, er, NewWire, FirstHalf(p), SecondHalf(q));
    var n := FirstChunkSize(es, |p|);
    Parts(p, q, n);
  }

  lemma Parts(p: Bytes, q: Bytes, n: nat)
    requires |p| == |q| && n <= |p|
    ensures (p[..n] + q[n..])[..n] == p[..n] && (p[..n] + q[n..])[n..] == q[n..]
  {
  }
}
