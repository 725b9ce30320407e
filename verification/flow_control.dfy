/** What a waiting sender does with each flow status, from the encoded frame to the frames it queues
    (isotp/tx_handler.go:74-111). */
module FlowControl {
  import opened Basics
  import opened Framing
  import opened Pdu
  import opened Link
  import opened IsoTpSpec
  import opened SessionInvariant
  import opened Direction
  import opened Network

  /** The session hears a flow control that the public encoder accepts, with whatever the link appends. */
  function Hears(env: Env, s: Session, status: byte, blockSize: int, stMin: byte, fill: Bytes, room: bool): Out
    requires s.rx.state == WaitCF ==> |s.rx.buffer| < s.rx.frameLen
    requires EncodeFlowControlFrame(status, blockSize, stMin).Ok?
  {
    var data := EncodeFlowControlFrame(status, blockSize, stMin).value + fill;
    Step(env, s, Incoming(LinkFrame(env.rxID, data, env.fd), room))
  }

  /** The transfer is over, the receive half is as it was, and nothing is sent or delivered. */
  predicate Ends(s: Session, o: Out) {
    && o.s.tx.state == Idle && o.s.tx.buffer == [] && !o.s.tx.fcTimer && !o.s.tx.stTimer
    && o.s.rx == s.rx && o.frames == [] && o.deliveries == []
  }

  /** Overflow ends the transfer with exactly one error. */
  lemma OverflowEnds(env: Env, s: Session, blockSize: int, stMin: byte, fill: Bytes, room: bool)
    requires Inv(env, s) && s.tx.state == WaitFC && EncodeFlowControlFrame(OVERFLOW, blockSize, stMin).Ok?
    ensures var o := Hears(env, s, OVERFLOW, blockSize, stMin, fill, room);
            Ends(s, o) && o.errors == [RemoteOverflow]
  {
  }

  /** ContinueToSend makes the sender send at the pace of the frame, losing nothing. */
  lemma ContinueGoesOn(env: Env, s: Session, blockSize: int, stMin: byte, fill: Bytes, room: bool)
    requires Inv(env, s) && s.tx.state == WaitFC && EncodeFlowControlFrame(CONTINUE_TO_SEND, blockSize, stMin).Ok?
    ensures var o := Hears(env, s, CONTINUE_TO_SEND, blockSize, stMin, fill, room);
            && o.s.tx.state == Transmit && o.s.tx.stTimer && !o.s.tx.fcTimer
            && o.s.tx.remoteBlockSize == blockSize && o.s.tx.remoteSTminUS == DecodeSTmin(stMin)
            && o.s.tx.blockCounter == 0 && o.s.tx.waitFrames == 0
            && o.s.tx.buffer == s.tx.buffer && o.s.tx.seqNum == s.tx.seqNum && o.s.tx.frameLen == s.tx.frameLen
            && o.s.rx == s.rx && o.frames == [] && o.deliveries == [] && o.errors == []
  {
  }

  /** A flow control nobody waits for has no effect at all. */
  lemma UnexpectedIgnored(env: Env, s: Session, status: byte, blockSize: int, stMin: byte, fill: Bytes, room: bool)
    requires Inv(env, s) && s.tx.state != WaitFC && EncodeFlowControlFrame(status, blockSize, stMin).Ok?
    ensures Hears(env, s, status, blockSize, stMin, fill, room) == Out(s, [], [], [])
  {
  }

  // ---------- WAIT ----------

  /** The session after `n` WAITs, and the errors it has reported by then. */
  function AfterWaits(env: Env, s: Session, n: nat): (Session, seq<Error>)
    requires Inv(env, s)
    ensures Inv(env, AfterWaits(env, s, n).0)
  {
    if n == 0 then (s, [])
    else
      var (before, errors) := AfterWaits(env, s, n - 1);
      var o := Hears(env, before, WAIT, 0, 0, [], true);
      WaitKeeps(env, before);
      (o.s, errors + o.errors)
  }

  lemma WaitKeeps(env: Env, s: Session)
    requires Inv(env, s)
    ensures Inv(env, Hears(env, s, WAIT, 0, 0, [], true).s)
  {
    var data := EncodeFlowControlFrame(WAIT, 0, 0).value + [];
    StepKeepsInv(env, s, Incoming(LinkFrame(env.rxID, data, env.fd), true));
  }

  lemma OneWait(env: Env, s: Session)
    requires Inv(env, s)
    ensures var o := Hears(env, s, WAIT, 0, 0, [], true);
            if s.tx.state != WaitFC then o.s == s && o.errors == []
            else if env.cfg.maxWaitFrames < 0 || s.tx.waitFrames < env.cfg.maxWaitFrames
            then o.s == s.(tx := s.tx.(waitFrames := s.tx.waitFrames + 1)) && o.errors == []
            else o.s.tx.state == Idle && o.s.rx == s.rx && o.errors == [TooManyWaits]
  {
  }

  /** A waiting sender survives exactly the configured number of WAITs in a row: it goes on waiting, and the
      next one ends the transfer with exactly one error. */
  lemma {:induction false} WaitLimit(env: Env, s: Session, n: nat)
    requires Inv(env, s) && s.tx.state == WaitFC
    ensures var (t, errors) := AfterWaits(env, s, n);
            if env.cfg.maxWaitFrames < 0 || s.tx.waitFrames + n <= env.cfg.maxWaitFrames
            then t == s.(tx := s.tx.(waitFrames := s.tx.waitFrames + n)) && errors == []
            else t.tx.state == Idle && t.rx == s.rx && errors == [TooManyWaits]
  {
    if n > 0 {
      WaitLimit(env, s, n - 1);
      OneWait(env, AfterWaits(env, s, n - 1).0);
    }
  }

  // ---------- on a connection ----------

  predicate StartsAt(side: Side, act: Action) { side == A && act.Start? }

  /** Every data frame on end A's queue was there before. */
  predicate NoNewData(before: seq<Entry>, after: seq<Entry>) {
    forall e :: e in after && e.tag.Some? ==> e in before
  }

  lemma IdleStepQueuesNoData(ea: Env, eb: Env, c: Conn, side: Side, act: Action)
    requires CanStepConn(ea, eb, c, side, act) && !StartsAt(side, act)
    requires Inv(At(ea, c.addrA), c.net.a) && c.net.a.tx.state == Idle
    ensures var d := StepConn(ea, eb, c, side, act);
            Inv(At(ea, d.addrA), d.net.a) && d.net.a.tx.state == Idle && NoNewData(c.net.ab, d.net.ab)
  {
    var env := At(ea, c.addrA);
    if side == A {
      match act
      case Take(room) =>
        match FromCANFrame(c.net.ba[0].frame) {
          case None =>
          case Some(msg) => StepKeepsInv(env, c.net.a, Incoming(msg, room));
        }
      case CFTimer => StepKeepsInv(env, c.net.a, CFTimerFires);
      case _ =>
    }
  }

  /** While end A rests it queues no data frame, whatever the peer, the timers and the application do. */
  lemma {:induction false} IdleQueuesNoData(ea: Env, eb: Env, cs: seq<Conn>, sides: seq<Side>, acts: seq<Action>)
    requires Stretch(ea, eb, cs, sides, acts) && Inv(At(ea, cs[0].addrA), cs[0].net.a)
    requires cs[0].net.a.tx.state == Idle && forall i :: 0 <= i < |acts| ==> !StartsAt(sides[i], acts[i])
    ensures var d := cs[|acts|];
            Inv(At(ea, d.addrA), d.net.a) && d.net.a.tx.state == Idle && NoNewData(cs[0].net.ab, d.net.ab)
    decreases |acts|
  {
    if acts != [] {
      var n := |acts| - 1;
      StretchFront(ea, eb, cs, sides, acts);
      IdleQueuesNoData(ea, eb, cs[..n + 1], sides[..n], acts[..n]);
      IdleStepQueuesNoData(ea, eb, cs[n], sides[n], acts[n]);
    }
  }

  /** After the peer has reported overflow, no further frame of that payload is ever queued: whatever
      happens until end A starts another one, its queue gains no data frame. */
  lemma OverflowStopsPayload(ea: Env, eb: Env, cs: seq<Conn>, sides: seq<Side>, acts: seq<Action>)
    requires Stretch(ea, eb, cs, sides, acts) && acts != [] && sides[0] == A && acts[0].Take?
    requires Inv(At(ea, cs[0].addrA), cs[0].net.a) && cs[0].net.a.tx.state == WaitFC && cs[0].net.ba != []
    requires var pdu := Decoded(ea, cs[0].net.ba[0].frame);
             pdu.Some? && pdu.value.FlowControlFrame? && pdu.value.flowStatus == OVERFLOW
    requires forall i :: 0 < i < |acts| ==> !StartsAt(sides[i], acts[i])
    ensures cs[1].net.errors == cs[0].net.errors + [RemoteOverflow]
    ensures NoNewData(cs[0].net.ab, cs[|acts|].net.ab)
  {
    assert StepsTo(ea, eb, cs[0], sides[0], acts[0], cs[1]);
    OverflowTaken(ea, eb, cs[0], acts[0]);
    var ds, ts, bs := cs[1..], sides[1..], acts[1..];
    forall i | 0 <= i < |bs| ensures StepsTo(ea, eb, ds[i], ts[i], bs[i], ds[i + 1]) {
      assert StepsTo(ea, eb, cs[i + 1], sides[i + 1], acts[i + 1], cs[i + 2]);
    }
    IdleQueuesNoData(ea, eb, ds, ts, bs);
  }

  lemma OverflowTaken(ea: Env, eb: Env, c: Conn, act: Action)
    requires CanStepConn(ea, eb, c, A, act) && act.Take?
    requires Inv(At(ea, c.addrA), c.net.a) && c.net.a.tx.state == WaitFC
    requires var pdu := Decoded(ea, c.net.ba[0].frame);
             pdu.Some? && pdu.value.FlowControlFrame? && pdu.value.flowStatus == OVERFLOW
    ensures var d := StepConn(ea, eb, c, A, act);
            && Inv(At(ea, d.addrA), d.net.a) && d.net.a.tx.state == Idle
            && d.net.ab == c.net.ab && d.net.errors == c.net.errors + [RemoteOverflow]
  {
    var msg := FromCANFrame(c.net.ba[0].frame).value;
    StepKeepsInv(At(ea, c.addrA), c.net.a, Incoming(msg, act.room));
  }
}
