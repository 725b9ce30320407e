/** Nothing is lost silently: every payload a session begins to send or to receive is completed, reported as
    failed exactly once, or still under way (isotp/stack.go:258-292, tx_handler.go, rx_handler.go). */
module Accounting {
  import opened Basics
  import opened Framing
  import opened Pdu
  import opened Link
  import opened IsoTpSpec
  import opened SessionInvariant

  /** Errors that end a transfer that was being sent. */
  predicate SendFailure(e: Error) { e.FCTimedOut? || e.TooManyWaits? || e.RemoteOverflow? }

  /** Errors that give up a payload that was being received. */
  predicate ReceiveFailure(e: Error) {
    || e.CFTimedOut? || e.InterruptedBySF? || e.InterruptedByFF?
    || e.RxQueueFull? || e.PayloadTooLarge? || e.SequenceMismatch?
  }

  function One(b: bool): nat { if b then 1 else 0 }

  function Failures(errors: seq<Error>, sending: bool): nat {
    if errors == [] then 0
    else
      var e := errors[|errors| - 1];
      Failures(errors[..|errors| - 1], sending) + One(if sending then SendFailure(e) else ReceiveFailure(e))
  }

  /** What the session makes of a frame: nothing for one with another identifier. */
  function Heard(env: Env, ev: Event): Option<Result<PDU, ParseError>> {
    if ev.Incoming? && ev.msg.arbitrationID == env.rxID then Some(ParseFrame(ev.msg.data)) else None
  }

  /** A PDU is heard. */
  function HeardPDU(env: Env, ev: Event): Option<PDU> {
    var h := Heard(env, ev);
    if h.Some? && h.value.Ok? then Some(h.value.value) else None
  }

  /** A payload begins to arrive. */
  predicate Begins(env: Env, ev: Event) {
    var pdu := HeardPDU(env, ev);
    pdu.Some? && (pdu.value.SingleFrame? || pdu.value.FirstFrame?)
  }

  /** The last frame of a payload is sent. */
  predicate Completes(ev: Event, o: Out) {
    (ev.Payload? || ev.STminTimerFires?) && o.frames != [] && o.s.tx.state == Idle
  }

  predicate SendsAccounted(s: Session, ev: Event, o: Out) {
    One(s.tx.state != Idle) + One(ev.Payload?)
    == One(o.s.tx.state != Idle) + One(Completes(ev, o)) + Failures(o.errors, true)
  }

  predicate ReceivesAccounted(env: Env, s: Session, ev: Event, o: Out) {
    One(s.rx.state != Idle) + One(Begins(env, ev))
    == One(o.s.rx.state != Idle) + |o.deliveries| + Failures(o.errors, false)
  }

  /** What a PDU can be to blame for. */
  predicate Blames(env: Env, rx: Rx, pdu: PDU, room: bool, e: Error) {
    match pdu
    case FlowControlFrame(fs, _, _) => (e.TooManyWaits? && fs == WAIT) || (e.RemoteOverflow? && fs == OVERFLOW)
    case SingleFrame(_) => e.InterruptedBySF? || (e.RxQueueFull? && !room)
    case FirstFrame(total, _) => e.InterruptedByFF? || (e.PayloadTooLarge? && total > env.cfg.maxPayloadSize)
    case ConsecutiveFrame(sn, _) =>
      (e.RxQueueFull? && !room) || (e.SequenceMismatch? && e.got == sn != e.expected == rx.seqNum)
  }

  /** Every error names its cause. */
  predicate Justified(env: Env, s: Session, ev: Event, e: Error) {
    match ev
    case Incoming(_, room) =>
      var pdu := HeardPDU(env, ev);
      if pdu.Some? then Blames(env, s.rx, pdu.value, room, e) else Heard(env, ev).Some? && e.ParseFailed?
    case CFTimerFires => e.CFTimedOut?
    case FCTimerFires => e.FCTimedOut?
    case _ => false
  }

  /** The errors of a step: each justified, and none but failures and, for a frame that does not parse, that. */
  predicate ErrorsAccounted(env: Env, s: Session, ev: Event, o: Out) {
    && (forall e :: e in o.errors ==> Justified(env, s, ev, e))
    && |o.errors| == Failures(o.errors, true) + Failures(o.errors, false)
                     + One(Heard(env, ev).Some? && HeardPDU(env, ev).None?)
  }

  predicate StepAccounted(env: Env, s: Session, ev: Event, o: Out) {
    SendsAccounted(s, ev, o) && ReceivesAccounted(env, s, ev, o) && ErrorsAccounted(env, s, ev, o)
  }

  lemma FewErrors(errors: seq<Error>)
    requires |errors| <= 2
    ensures errors == [] ==> Failures(errors, true) == Failures(errors, false) == 0
    ensures |errors| == 1 ==> Failures(errors, true) == One(SendFailure(errors[0]))
                              && Failures(errors, false) == One(ReceiveFailure(errors[0]))
    ensures |errors| == 2 ==> Failures(errors, true) == One(SendFailure(errors[0])) + One(SendFailure(errors[1]))
                              && Failures(errors, false)
                                 == One(ReceiveFailure(errors[0])) + One(ReceiveFailure(errors[1]))
  {
    if |errors| == 2 { assert errors[..1] == [errors[0]] && [errors[0]][..0] == []; }
    if |errors| == 1 { assert errors[..0] == []; }
  }

  /** At most two errors, all of them failures of one side. */
  predicate Reports(errors: seq<Error>, sending: bool) {
    |errors| <= 2 && forall e :: e in errors ==> if sending then SendFailure(e) else ReceiveFailure(e)
  }

  lemma AllFailures(errors: seq<Error>, sending: bool)
    requires Reports(errors, sending)
    ensures Failures(errors, sending) == |errors| && Failures(errors, !sending) == 0
  {
    FewErrors(errors);
  }

  /** What came of a PDU, on its side of the session; the other stays as it was. */
  predicate PDUAccounted(env: Env, s: Session, pdu: PDU, room: bool, o: Out) {
    && |o.errors| <= 2 && (forall e :: e in o.errors ==> Blames(env, s.rx, pdu, room, e))
    && if pdu.FlowControlFrame?
       then o.s.rx == s.rx && o.deliveries == []
            && One(s.tx.state != Idle) == One(o.s.tx.state != Idle) + |o.errors|
       else o.s.tx == s.tx
            && One(s.rx.state != Idle) + One(pdu.SingleFrame? || pdu.FirstFrame?)
               == One(o.s.rx.state != Idle) + |o.deliveries| + |o.errors|
  }

  lemma FlowControlHandled(env: Env, s: Session, pdu: PDU, room: bool)
    requires Inv(env, s) && pdu.FlowControlFrame? && pdu.flowStatus <= OVERFLOW
    ensures PDUAccounted(env, s, pdu, room, HandlePDU(env, s, pdu, room))
  {
  }

  lemma BeginningHandled(env: Env, s: Session, pdu: PDU, room: bool)
    requires Inv(env, s) && (pdu.SingleFrame? || (pdu.FirstFrame? && |pdu.data| < pdu.totalSize))
    ensures PDUAccounted(env, s, pdu, room, HandlePDU(env, s, pdu, room))
  {
  }

  lemma ContinuationHandled(env: Env, s: Session, pdu: PDU, room: bool)
    requires Inv(env, s) && pdu.ConsecutiveFrame?
    ensures PDUAccounted(env, s, pdu, room, HandlePDU(env, s, pdu, room))
  {
  }

  lemma HandledPDU(env: Env, s: Session, p: Bytes, room: bool)
    requires Inv(env, s) && ParseFrame(p).Ok?
    ensures PDUAccounted(env, s, ParseFrame(p).value, room, HandlePDU(env, s, ParseFrame(p).value, room))
  {
    var pdu := ParseFrame(p).value;
    if pdu.FlowControlFrame? {
      FlowControlHandled(env, s, pdu, room);
    } else if pdu.ConsecutiveFrame? {
      ContinuationHandled(env, s, pdu, room);
    } else {
      if pdu.FirstFrame? { FirstFrameCanonical(p, |p|); }
      BeginningHandled(env, s, pdu, room);
    }
  }

  lemma HeardAccounted(env: Env, s: Session, msg: LinkFrame, room: bool)
    requires Inv(env, s) && msg.arbitrationID == env.rxID && ParseFrame(msg.data).Ok?
    ensures StepAccounted(env, s, Incoming(msg, room), Step(env, s, Incoming(msg, room)))
  {
    var pdu := ParseFrame(msg.data).value;
    var o := HandlePDU(env, s, pdu, room);
    HandledPDU(env, s, msg.data, room);
    AllFailures(o.errors, pdu.FlowControlFrame?);
    Composed(env, s, msg, room, pdu, o);
    assert Step(env, s, Incoming(msg, room)) == o;
  }

  lemma Composed(env: Env, s: Session, msg: LinkFrame, room: bool, pdu: PDU, o: Out)
    requires HeardPDU(env, Incoming(msg, room)) == Some(pdu) && PDUAccounted(env, s, pdu, room, o)
    requires Failures(o.errors, pdu.FlowControlFrame?) == |o.errors|
    requires Failures(o.errors, !pdu.FlowControlFrame?) == 0
    ensures StepAccounted(env, s, Incoming(msg, room), o)
  {
  }

  lemma OwnStepAccounted(env: Env, s: Session, ev: Event)
    requires Inv(env, s) && Enabled(s, ev) && !ev.Incoming?
    ensures StepAccounted(env, s, ev, Step(env, s, ev))
  {
    FewErrors(Step(env, s, ev).errors);
    match ev
    case Payload(data) => InitiateTxKeeps(env, s.tx, data);
    case STminTimerFires => STminTimeoutKeeps(env, s.tx);
    case _ =>
  }

  lemma UnheardAccounted(env: Env, s: Session, msg: LinkFrame, room: bool)
    requires Inv(env, s) && !(msg.arbitrationID == env.rxID && ParseFrame(msg.data).Ok?)
    ensures StepAccounted(env, s, Incoming(msg, room), Step(env, s, Incoming(msg, room)))
  {
    FewErrors(Step(env, s, Incoming(msg, room)).errors);
  }

  lemma StepIsAccounted(env: Env, s: Session, ev: Event)
    requires Inv(env, s) && Enabled(s, ev)
    ensures StepAccounted(env, s, ev, Step(env, s, ev))
  {
    if !ev.Incoming? {
      OwnStepAccounted(env, s, ev);
    } else if ev.msg.arbitrationID == env.rxID && ParseFrame(ev.msg.data).Ok? {
      HeardAccounted(env, s, ev.msg, ev.room);
    } else {
      UnheardAccounted(env, s, ev.msg, ev.room);
    }
  }

  /** The error that reports an interrupted payload. */
  function Interruption(rx: Rx, pdu: PDU): seq<Error> {
    if rx.state == Idle then [] else [if pdu.SingleFrame? then InterruptedBySF else InterruptedByFF]
  }

  lemma HandlesAfresh(env: Env, s: Session, pdu: PDU, room: bool)
    requires Inv(env, s) && (pdu.SingleFrame? || pdu.FirstFrame?)
    ensures var o, anew := HandlePDU(env, s, pdu, room), HandlePDU(env, s.(rx := IdleRx), pdu, room);
            && o.s == anew.s && o.frames == anew.frames && o.deliveries == anew.deliveries
            && o.errors == Interruption(s.rx, pdu) + anew.errors
  {
  }

  /** A frame that begins a payload finds a receiver as good as new: whatever was being collected has no
      influence beyond the one error that reports it. */
  lemma BeginsAfresh(env: Env, s: Session, msg: LinkFrame, room: bool)
    requires Inv(env, s) && Begins(env, Incoming(msg, room))
    ensures var ev := Incoming(msg, room);
            var o, anew := Step(env, s, ev), Step(env, s.(rx := IdleRx), ev);
            && o.s == anew.s && o.frames == anew.frames && o.deliveries == anew.deliveries
            && o.errors == Interruption(s.rx, HeardPDU(env, ev).value) + anew.errors
  {
    HandlesAfresh(env, s, ParseFrame(msg.data).value, room);
  }

  // ---------- whole runs ----------

  /** What a run has begun, completed and reported. */
  datatype Tally = Tally(started: nat, sent: nat, sendFailures: nat, begun: nat, delivered: nat, receiveFailures: nat)

  function Added(env: Env, t: Tally, ev: Event, o: Out): Tally {
    Tally(t.started + One(ev.Payload?), t.sent + One(Completes(ev, o)), t.sendFailures + Failures(o.errors, true),
          t.begun + One(Begins(env, ev)), t.delivered + |o.deliveries|, t.receiveFailures + Failures(o.errors, false))
  }

  function Count(env: Env, states: seq<Session>, events: seq<Event>): Tally
    requires Run(env, states, events)
  {
    if events == [] then Tally(0, 0, 0, 0, 0, 0)
    else
      var n := |events| - 1;
      Added(env, Count(env, states[..n + 1], events[..n]), events[n], Step(env, states[n], events[n]))
  }

  /** Everything begun is completed, reported as failed, or under way. */
  predicate Balanced(t: Tally, s: Session) {
    && t.started == t.sent + t.sendFailures + One(s.tx.state != Idle)
    && t.begun == t.delivered + t.receiveFailures + One(s.rx.state != Idle)
  }

  /** A run without its last step, and that step. */
  lemma RunFront(env: Env, states: seq<Session>, events: seq<Event>)
    requires Run(env, states, events) && events != []
    ensures var n := |events| - 1;
            && Run(env, states[..n + 1], events[..n]) && Inv(env, states[n]) && Enabled(states[n], events[n])
            && states[n + 1] == Step(env, states[n], events[n]).s
  {
    var n := |events| - 1;
    NeverStuck(env, states[..n + 1], events[..n]);
  }

  lemma CountStep(env: Env, states: seq<Session>, events: seq<Event>)
    requires Run(env, states, events) && events != []
    requires var n := |events| - 1; Run(env, states[..n + 1], events[..n]) && Inv(env, states[n])
    ensures var n := |events| - 1;
            Count(env, states, events)
            == Added(env, Count(env, states[..n + 1], events[..n]), events[n], Step(env, states[n], events[n]))
  {
  }

  /** Whatever the peer sends, the timers do and the application asks: the payloads started are those sent
      completely, those reported as failed, and the one under way; and the payloads whose first frame was
      heard are those delivered, those reported as failed, and the one being collected. */
  lemma {:induction false} NothingLostSilently(env: Env, states: seq<Session>, events: seq<Event>)
    requires Run(env, states, events)
    ensures Balanced(Count(env, states, events), states[|events|])
    decreases |events|
  {
    if events != [] {
      var n := |events| - 1;
      RunFront(env, states, events);
      NothingLostSilently(env, states[..n + 1], events[..n]);
      BalancedStep(env, Count(env, states[..n + 1], events[..n]), states[n], events[n]);
      CountStep(env, states, events);
    }
  }

  lemma BalancedStep(env: Env, t: Tally, s: Session, ev: Event)
    requires Inv(env, s) && Enabled(s, ev) && Balanced(t, s)
    ensures Balanced(Added(env, t, ev, Step(env, s, ev)), Step(env, s, ev).s)
  {
    StepIsAccounted(env, s, ev);
  }
}
