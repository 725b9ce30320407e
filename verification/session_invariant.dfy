/** What every step of one session keeps, whatever the peer sends. */
module SessionInvariant {
  import opened Basics
  import opened Framing
  import opened Pdu
  import opened Link
  import opened IsoTpSpec

  /** The transmit half: each state has exactly its own timer armed, an active transfer has
      bytes left, and Idle has everything reset. */
  predicate TxInv(env: Env, tx: Tx) {
    && tx.state in {Idle, WaitFC, Transmit}
    && (tx.fcTimer <==> tx.state == WaitFC)
    && (tx.stTimer <==> tx.state == Transmit)
    && (tx.state != Idle ==> tx.buffer != [] && |tx.buffer| < tx.frameLen && tx.seqNum <= 15)
    && (tx.state == Idle ==> tx == StopSending(tx))
    && (tx.state == Transmit ==> tx.waitFrames == 0)
    && (tx.state == Transmit && tx.remoteBlockSize > 0 ==> tx.blockCounter < tx.remoteBlockSize)
    && (env.cfg.maxWaitFrames >= 0 ==> tx.waitFrames <= env.cfg.maxWaitFrames)
  }

  /** The receive half: a reassembly is armed, incomplete, within the limit and inside its block. */
  predicate RxInv(env: Env, rx: Rx) {
    && rx.state in {Idle, WaitCF}
    && (rx.cfTimer <==> rx.state == WaitCF)
    && (rx.state == WaitCF ==> |rx.buffer| < rx.frameLen <= env.cfg.maxPayloadSize && rx.seqNum <= 15)
    && (rx.state == WaitCF && env.cfg.blockSize > 0 ==> rx.blockCounter < env.cfg.blockSize)
    && (rx.state == Idle ==> rx == IdleRx)
  }

  predicate Inv(env: Env, s: Session) {
    TxInv(env, s.tx) && RxInv(env, s.rx)
  }

  /** Errors behind branches no session can reach. */
  predicate DeadError(e: Error) {
    e.EncodingFailed? || e.InvalidFlowStatus? || e.BadFirstFrameLength?
  }

  /** A payload is sent as a Single Frame up to 7 bytes on classic CAN and up to 62 on CAN FD. */
  lemma SingleFrameCapacity(env: Env, n: nat)
    ensures FitsSingleFrame(env, n) <==> n <= if env.fd then 62 else 7
  {
  }

  lemma InitiateTxKeeps(env: Env, tx: Tx, payload: Bytes)
    requires TxInv(env, tx) && tx.state == Idle
    ensures TxInv(env, InitiateTx(env, tx, payload).tx)
    ensures InitiateTx(env, tx, payload).errors == []
    ensures |InitiateTx(env, tx, payload).frames| == 1
  {
  }

  lemma STminTimeoutKeeps(env: Env, tx: Tx)
    requires TxInv(env, tx) && tx.stTimer
    ensures TxInv(env, STminTimeout(env, tx).tx)
    ensures STminTimeout(env, tx).errors == [] && |STminTimeout(env, tx).frames| == 1
  {
  }

  lemma FlowControlKeeps(env: Env, tx: Tx, fs: byte, bs: nat, st: nat)
    requires TxInv(env, tx) && fs <= OVERFLOW
    ensures var o := HandleFlowControl(env, tx, fs, bs, st);
            TxInv(env, o.tx) && o.frames == [] && forall e :: e in o.errors ==> !DeadError(e)
  {
  }

  lemma FirstFrameKeeps(env: Env, rx: Rx, total: nat, data: Bytes)
    requires RxInv(env, rx) && |data| < total
    ensures var o := HandleFirstFrame(env, rx, total, data);
            RxInv(env, o.rx) && forall e :: e in o.errors ==> !DeadError(e)
  {
  }

  lemma ConsecutiveFrameKeeps(env: Env, rx: Rx, sn: nat, data: Bytes, room: bool)
    requires RxInv(env, rx)
    ensures var o := HandleConsecutiveFrame(env, rx, sn, data, room);
            RxInv(env, o.rx) && forall e :: e in o.errors ==> !DeadError(e)
  {
  }

  lemma ReceiveKeeps(env: Env, s: Session, p: Bytes, room: bool)
    requires Inv(env, s) && ParseFrame(p).Ok?
    ensures var o := HandlePDU(env, s, ParseFrame(p).value, room);
            Inv(env, o.s) && forall e :: e in o.errors ==> !DeadError(e)
  {
    var pdu := ParseFrame(p).value;
    match pdu
    case FlowControlFrame(fs, bs, st) => FlowControlKeeps(env, s.tx, fs, bs, st);
    case FirstFrame(total, data) =>
      FirstFrameCanonical(p, |p|);
      FirstFrameKeeps(env, s.rx, total, data);
    case ConsecutiveFrame(sn, data) => ConsecutiveFrameKeeps(env, s.rx, sn, data, room);
    case SingleFrame(_) =>
  }

  /** Every step keeps the invariant, so no arm ever slices out of range and the error
      branches for unencodable frames, invalid flow status and bad FF lengths are dead. */
  lemma StepKeepsInv(env: Env, s: Session, ev: Event)
    requires Inv(env, s) && Enabled(s, ev)
    ensures Inv(env, Step(env, s, ev).s)
    ensures forall e :: e in Step(env, s, ev).errors ==> !DeadError(e)
  {
    match ev
    case Incoming(msg, room) =>
      if msg.arbitrationID == env.rxID && ParseFrame(msg.data).Ok? {
        ReceiveKeeps(env, s, msg.data, room);
      }
    case Payload(data) => InitiateTxKeeps(env, s.tx, data);
    case STminTimerFires => STminTimeoutKeeps(env, s.tx);
    case _ =>
  }

  lemma UnsentTx(env: Env, o: TxOut, sent: bool)
    requires TxInv(env, o.tx)
    ensures var r := TxUnless(o, sent);
            && TxInv(env, r.tx) && r.errors == o.errors
            && if sent || o.frames == [] then r == o else r.frames == [] && r.tx.state == Idle
  {
  }

  lemma UnsentRx(env: Env, o: RxOut, sent: bool)
    requires RxInv(env, o.rx)
    ensures var r := RxUnless(o, sent);
            && RxInv(env, r.rx) && r.errors == o.errors && r.deliveries == o.deliveries
            && if sent || o.frames == [] then r == o else r.frames == [] && r.rx.state == Idle
  {
  }

  /** What a failed hand-over changes: the half that sends is reset, and deliveries and errors stay. */
  predicate Unsent(env: Env, s: Session, whole: Out, o: Out, sending: bool) {
    && Inv(env, o.s) && o.deliveries == whole.deliveries && o.errors == whole.errors && o.frames == []
    && if sending then o.s.tx.state == Idle && o.s.rx == s.rx else o.s.rx.state == Idle && o.s.tx == s.tx
  }

  lemma UnsentPDU(env: Env, s: Session, pdu: PDU, room: bool, sent: bool)
    requires Inv(env, s) && Inv(env, HandlePDU(env, s, pdu, room).s)
    ensures var o, whole := HandlePDUSending(env, s, pdu, room, sent), HandlePDU(env, s, pdu, room);
            if sent || whole.frames == [] then o == whole else Unsent(env, s, whole, o, false)
  {
    match pdu
    case FirstFrame(total, data) => UnsentRx(env, HandleFirstFrame(env, s.rx, total, data), sent);
    case ConsecutiveFrame(sn, data) => UnsentRx(env, HandleConsecutiveFrame(env, s.rx, sn, data, room), sent);
    case _ =>
  }

  lemma UnsentIncoming(env: Env, s: Session, msg: LinkFrame, room: bool, sent: bool)
    requires Inv(env, s)
    ensures var ev := Incoming(msg, room);
            var o, whole := StepSending(env, s, ev, sent), Step(env, s, ev);
            && Inv(env, o.s)
            && if sent || whole.frames == [] then o == whole else Unsent(env, s, whole, o, false)
  {
    StepKeepsInv(env, s, Incoming(msg, room));
    if msg.arbitrationID == env.rxID && ParseFrame(msg.data).Ok? {
      UnsentPDU(env, s, ParseFrame(msg.data).value, room, sent);
    }
  }

  /** With its frame handed over a step is the ordinary one. Without, which happens only while the
      session is being closed, the half that sends is reset, nothing else is sent, and the invariant,
      the deliveries and the errors are those of the ordinary step. */
  lemma UnsentStepKeepsInv(env: Env, s: Session, ev: Event, sent: bool)
    requires Inv(env, s) && Enabled(s, ev)
    ensures var o, whole := StepSending(env, s, ev, sent), Step(env, s, ev);
            && Inv(env, o.s)
            && if sent || whole.frames == [] then o == whole else Unsent(env, s, whole, o, !ev.Incoming?)
  {
    match ev
    case Incoming(msg, room) => UnsentIncoming(env, s, msg, room, sent);
    case Payload(data) =>
      InitiateTxKeeps(env, s.tx, data);
      UnsentTx(env, InitiateTx(env, s.tx, data), sent);
    case STminTimerFires =>
      STminTimeoutKeeps(env, s.tx);
      UnsentTx(env, STminTimeout(env, s.tx), sent);
    case _ => StepKeepsInv(env, s, ev);
  }

  /** A run: every event is enabled and no step is taken from a state in which
      the receive handler would slice out of range. */
  ghost predicate Run(env: Env, states: seq<Session>, events: seq<Event>) {
    && |states| == |events| + 1 && states[0] == NewSession
    && forall i :: 0 <= i < |events| ==>
         && Enabled(states[i], events[i])
         && (states[i].rx.state == WaitCF ==> |states[i].rx.buffer| < states[i].rx.frameLen)
         && states[i + 1] == Step(env, states[i], events[i]).s
  }

  /** Timer and state are coupled in every reachable state: a half that is not Idle always
      has its own timer pending, so a session cannot get stuck. The guard against a stale
      STmin expiry and the guard against an empty transmit buffer never fire. */
  lemma {:induction false} NeverStuck(env: Env, states: seq<Session>, events: seq<Event>)
    requires Run(env, states, events)
    ensures var s := states[|events|];
            && Inv(env, s)
            && (s.tx.state != Idle ==> Enabled(s, FCTimerFires) || Enabled(s, STminTimerFires))
            && (s.rx.state != Idle ==> Enabled(s, CFTimerFires))
            && (Enabled(s, STminTimerFires) ==> s.tx.state == Transmit && s.tx.buffer != [])
            && (Enabled(s, CFTimerFires) ==> s.rx.state == WaitCF)
            && (Enabled(s, FCTimerFires) ==> s.tx.state == WaitFC)
    decreases |events|
  {
    if events != [] {
      var n := |events| - 1;
      NeverStuck(env, states[..n + 1], events[..n]);
      StepKeepsInv(env, states[n], events[n]);
    }
  }
}
