/** Two address-paired sessions of the same mode joined by two lossless FIFO queues of CAN
    frames: every interleaving of the arms of both select loops, with timer expiries, full
    receive queues, frames injected by the application, and traffic in both directions. */
module Network {
  import opened Basics
  import opened Arith
  import opened Framing
  import opened Pdu
  import opened Link
  import opened IsoTpSpec
  import opened SessionInvariant
  import opened Direction
  import Can

  /** `hab` and `hba` are histories of the two directions and `errors` of everything reported. */
  datatype Net = Net(a: Session, b: Session, ab: seq<Entry>, ba: seq<Entry>,
                     hab: History, hba: History, errors: seq<Error>)

  function AB(net: Net): Dir { Dir(net.a.tx, net.ab, net.b.rx, net.hab) }

  function BA(net: Net): Dir { Dir(net.b.tx, net.ba, net.a.rx, net.hba) }

  function Swap(net: Net): Net { Net(net.b, net.a, net.ba, net.ab, net.hba, net.hab, net.errors) }

  /** What one end can do; `Inject` is a frame the application puts on the bus itself, for
      instance a manual flow control, and `Switch` is SetTxAddress. */
  datatype Action =
    | Start(payload: Bytes)
    | Take(room: bool)
    | CFTimer
    | FCTimer
    | STminTimer
    | Inject(frame: Can.Frame)
    | Switch(addr: Option<nat>)

  datatype Side = A | B

  const EmptyHistory := History([], [], NOTHING)
  const InitialNet := Net(NewSession, NewSession, [], [], EmptyHistory, EmptyHistory, [])

  predicate CanAct(ea: Env, eb: Env, net: Net, act: Action) {
    match act
    case Start(p) => Enabled(net.a, Payload(p)) && |p| <= ea.cfg.maxPayloadSize && Sendable(ea, p)
    case Take(_) => net.ba != []
    case CFTimer => Enabled(net.a, CFTimerFires)
    case FCTimer => Enabled(net.a, FCTimerFires)
    case STminTimer => Enabled(net.a, STminTimerFires)
    case Inject(f) => EntryOk(ea, eb, net.hab.sent, Entry(f, None))
    case Switch(addr) => addr.Some? ==> addr.value <= 0x7FF
  }

  /** Reassembly never slices out of range. */
  predicate Safe(s: Session) {
    s.rx.state == WaitCF ==> |s.rx.buffer| < s.rx.frameLen
  }

  /** The sending goroutine turns the frame of a step into a CAN frame on the queue. */
  function Emit(env: Env, q: seq<Entry>, frames: seq<LinkFrame>, tag: Option<Tag>): seq<Entry> {
    if frames == [] then q
    else match ToCANFrame(frames[0], env.brs)
         case Err(_) => q
         case Ok(f) => q + [Entry(Carry(f), tag)]
  }

  /** A step of end A outside the receive arm. */
  function Local(ea: Env, net: Net, ev: Event, tag: Option<Tag>): Net
    requires Safe(net.a)
  {
    var o := Step(ea, net.a, ev);
    net.(a := o.s, ab := Emit(ea, net.ab, o.frames, tag), errors := net.errors + o.errors)
  }

  /** End A takes the oldest frame of its queue through fromCANFrame into processRx. */
  function TakeFrame(ea: Env, net: Net, room: bool): Net
    requires Safe(net.a) && net.ba != []
  {
    var popped := Pop(BA(net));
    match FromCANFrame(net.ba[0].frame)
    case None => net.(ba := popped.queue, hba := popped.h)
    case Some(msg) =>
      var o := Step(ea, net.a, Incoming(msg, room));
      net.(a := o.s, ba := popped.queue, ab := Emit(ea, net.ab, o.frames, None),
           hba := popped.h.(delivered := popped.h.delivered + o.deliveries),
           errors := net.errors + o.errors)
  }

  function ContinuationTag(ea: Env, net: Net): Option<Tag> {
    var last := LastSent(AB(net));
    if Direct(ea) && 0 <= last.k < |net.hab.sent| then Some(NextTag(ea, net.hab.sent, last)) else None
  }

  /** One step of end A, whose environment `ea` holds its present transmit address. */
  function ActA(ea: Env, eb: Env, net: Net, act: Action): Net
    requires Safe(net.a) && CanAct(ea, eb, net, act)
  {
    match act
    case Start(p) =>
      Local(ea, net, Payload(p), FirstTag(ea, |net.hab.sent|, p)).(hab := net.hab.(sent := net.hab.sent + [p]))
    case Take(room) => TakeFrame(ea, net, room)
    case CFTimer => Local(ea, net, CFTimerFires, None)
    case FCTimer => Local(ea, net, FCTimerFires, None)
    case STminTimer => Local(ea, net, STminTimerFires, ContinuationTag(ea, net))
    case Inject(f) => net.(ab := net.ab + [Entry(f, None)])
    case Switch(_) => net
  }

  predicate CanStep(ea: Env, eb: Env, net: Net, side: Side, act: Action) {
    match side
    case A => Safe(net.a) && CanAct(ea, eb, net, act)
    case B => Safe(net.b) && CanAct(eb, ea, Swap(net), act)
  }

  function StepNet(ea: Env, eb: Env, net: Net, side: Side, act: Action): Net
    requires CanStep(ea, eb, net, side, act)
  {
    match side
    case A => ActA(ea, eb, net, act)
    case B => Swap(ActA(eb, ea, Swap(net), act))
  }

  predicate NetInv(ea: Env, eb: Env, net: Net) {
    && Inv(ea, net.a) && Inv(eb, net.b)
    && DirInv(ea, eb, AB(net)) && DirInv(eb, ea, BA(net))
    && forall e :: e in net.errors ==> !e.SequenceMismatch?
  }

  predicate Linked(ea: Env, eb: Env) { Matched(ea, eb) && Matched(eb, ea) }

  predicate Connected(ea: Env, eb: Env) { Paired(ea, eb) && Paired(eb, ea) }

  // ---------- the transmit half of a step ----------

  /** Timeouts and flow control keep an active sender where it is or stop it. */
  lemma TxRelKept(es: Env, tx: Tx, tx': Tx, sent: seq<Bytes>, last: Tag)
    requires TxRel(es, tx, sent, last)
    requires tx'.state == Idle || (tx.state != Idle && tx'.buffer == tx.buffer && tx'.seqNum == tx.seqNum)
    ensures TxRel(es, tx', sent, last)
  {
  }

  /** The first frame of a payload decodes to what its tag says, or to nothing. */
  lemma StartSendsFirst(ea: Env, eb: Env, tx: Tx, sent: seq<Bytes>, p: Bytes)
    requires Paired(ea, eb) && TxInv(ea, tx) && tx.state == Idle && Sendable(ea, p)
    ensures var o := InitiateTx(ea, tx, p);
            var tag := StartTag(ea, |sent|, p);
            && |o.frames| == 1 && o.errors == [] && ToCANFrame(o.frames[0], ea.brs).Ok?
            && EntryOk(ea, eb, sent + [p], Entry(Carry(ToCANFrame(o.frames[0], ea.brs).value), tag))
            && (o.tx.state != Idle ==> tag.Some? && TxRel(ea, o.tx, sent + [p], tag.value))
  {
    InitiateTxKeeps(ea, tx, p);
    if FitsSingleFrame(ea, |p|) {
      SingleFrameArrives(ea, eb, p);
    } else {
      FirstFrameArrives(ea, eb, p);
    }
  }

  /** A switched sender's first frame is foreign to the peer. */
  lemma StartDiverted(ea: Env, eb: Env, tx: Tx, sent: seq<Bytes>, p: Bytes)
    requires Matched(ea, eb) && !Direct(ea) && TxInv(ea, tx) && tx.state == Idle
    ensures var o := InitiateTx(ea, tx, p);
            && |o.frames| == 1 && o.errors == [] && ToCANFrame(o.frames[0], ea.brs).Ok?
            && EntryOk(ea, eb, sent, Entry(Carry(ToCANFrame(o.frames[0], ea.brs).value), None))
  {
    InitiateTxKeeps(ea, tx, p);
    var max := FrameDataLength(ea.fd);
    if FitsSingleFrame(ea, |p|) {
      DivertedIsForeign(ea, eb, CreateSingleFrame(p, max).value);
    } else {
      DivertedIsForeign(ea, eb, CreateFirstFrame(p[..FirstChunkSize(ea, |p|)], |p|, max).value);
    }
  }

  /** The frame and the sender that a new payload leaves. */
  lemma StartActs(ea: Env, eb: Env, net: Net, p: Bytes) returns (frame: Can.Frame, tx: Tx)
    requires Linked(ea, eb) && TxInv(ea, net.a.tx) && Safe(net.a) && CanAct(ea, eb, net, Start(p))
    ensures var sent, tag := net.hab.sent + [p], FirstTag(ea, |net.hab.sent|, p);
            && ActA(ea, eb, net, Start(p))
               == net.(a := net.a.(tx := tx), ab := net.ab + [Entry(frame, tag)], hab := net.hab.(sent := sent))
            && EntryOk(ea, eb, sent, Entry(frame, tag))
            && (tx.state != Idle && Direct(ea) ==> tag.Some? && TxRel(ea, tx, sent, tag.value))
    ensures TxInv(ea, tx) && tx == InitiateTx(ea, net.a.tx, p).tx
  {
    if Direct(ea) {
      StartSendsFirst(ea, eb, net.a.tx, net.hab.sent, p);
    } else {
      StartDiverted(ea, eb, net.a.tx, net.hab.sent + [p], p);
    }
    InitiateTxKeeps(ea, net.a.tx, p);
    var o := InitiateTx(ea, net.a.tx, p);
    frame, tx := Carry(ToCANFrame(o.frames[0], ea.brs).value), o.tx;
    assert net.errors + o.errors == net.errors;
  }

  lemma StartKeeps(ea: Env, eb: Env, net: Net, p: Bytes)
    requires Linked(ea, eb) && NetInv(ea, eb, net) && CanAct(ea, eb, net, Start(p))
    ensures NetInv(ea, eb, ActA(ea, eb, net, Start(p)))
  {
    var frame, tx := StartActs(ea, eb, net, p);
    PushStart(ea, eb, AB(net), p, frame, tx);
    assert BA(ActA(ea, eb, net, Start(p))) == BA(net);
  }

  /** What an STmin expiry emits and leaves behind. */
  predicate Transmits(env: Env, tx: Tx, o: TxOut) {
    var size := Min(ChunkSize(env), |tx.buffer|);
    && 0 < size <= |tx.buffer|
    && CreateConsecutiveFrame(tx.buffer[..size], tx.seqNum).Ok?
    && o.frames == [DataMsg(env, CreateConsecutiveFrame(tx.buffer[..size], tx.seqNum).value)]
    && (o.tx.state == Idle <==> size == |tx.buffer|)
    && (o.tx.state != Idle ==>
          o.tx.buffer == tx.buffer[size..] && o.tx.seqNum == (tx.seqNum + 1) % 16)
  }

  lemma TransmitShape(env: Env, tx: Tx)
    requires TxInv(env, tx) && tx.stTimer
    ensures Transmits(env, tx, STminTimeout(env, tx))
  {
  }

  lemma SliceOfDrop(p: Bytes, from: nat, n: nat)
    requires from + n <= |p|
    ensures p[from..][..n] == p[from..from + n] && p[from..][n..] == p[from + n..]
  {
  }

  /** The chunk of a payload that its next tag describes decodes to what the tag says. */
  lemma ContinuationDecodes(ea: Env, eb: Env, sent: seq<Bytes>, last: Tag)
    requires Paired(ea, eb) && 0 <= last.k < |sent|
    requires last.end < |sent[last.k]| && !FitsSingleFrame(ea, |sent[last.k]|)
    ensures var next := NextTag(ea, sent, last);
            var chunk := sent[last.k][next.start..next.end];
            && TagOk(ea, sent, next)
            && CreateConsecutiveFrame(chunk, next.i % 16).Ok?
            && var msg := DataMsg(ea, CreateConsecutiveFrame(chunk, next.i % 16).value);
               && ToCANFrame(msg, ea.brs).Ok?
               && EntryOk(ea, eb, sent, Entry(Carry(ToCANFrame(msg, ea.brs).value), Some(next)))
  {
    var next := NextTag(ea, sent, last);
    var chunk := sent[last.k][next.start..next.end];
    ConsecutiveFrameArrives(ea, eb, chunk, next.i % 16);
    var fill := WireFill(ea.cfg.paddingByte, ea.fd, |chunk| + 1);
    assert (chunk + fill)[..next.end - next.start] == chunk;
  }

  /** The consecutive frame an STmin expiry sends is the next tagged frame of the payload. */
  lemma TransmitSendsNext(ea: Env, eb: Env, tx: Tx, sent: seq<Bytes>, last: Tag, o: TxOut)
    requires Paired(ea, eb) && tx.state != Idle && TxRel(ea, tx, sent, last) && Transmits(ea, tx, o)
    ensures var next := NextTag(ea, sent, last);
            && ToCANFrame(o.frames[0], ea.brs).Ok?
            && EntryOk(ea, eb, sent, Entry(Carry(ToCANFrame(o.frames[0], ea.brs).value), Some(next)))
            && TxRel(ea, o.tx, sent, next)
  {
    var size, next := Min(ChunkSize(ea), |tx.buffer|), NextTag(ea, sent, last);
    SliceOfDrop(sent[last.k], last.end, size);
    NextNumber(last.i + 1);
    assert next.end == last.end + size;
    assert tx.buffer[..size] == sent[last.k][next.start..next.end];
    ContinuationDecodes(ea, eb, sent, last);
  }

  /** A switched sender's consecutive frame is foreign to the peer. */
  lemma TransmitDiverted(ea: Env, eb: Env, tx: Tx, sent: seq<Bytes>, o: TxOut)
    requires Matched(ea, eb) && !Direct(ea) && Transmits(ea, tx, o)
    ensures && ToCANFrame(o.frames[0], ea.brs).Ok?
            && EntryOk(ea, eb, sent, Entry(Carry(ToCANFrame(o.frames[0], ea.brs).value), None))
  {
    var size := Min(ChunkSize(ea), |tx.buffer|);
    DivertedIsForeign(ea, eb, CreateConsecutiveFrame(tx.buffer[..size], tx.seqNum).value);
  }

  /** The entry and the sender that an STmin expiry leaves. */
  lemma STminActs(ea: Env, eb: Env, net: Net) returns (e: Entry, tx: Tx)
    requires Linked(ea, eb) && NetInv(ea, eb, net) && CanAct(ea, eb, net, STminTimer)
    ensures tx == STminTimeout(ea, net.a.tx).tx && TxInv(ea, tx)
    ensures ActA(ea, eb, net, STminTimer) == net.(a := net.a.(tx := tx), ab := net.ab + [e])
    ensures e.tag == ContinuationTag(ea, net) && EntryOk(ea, eb, net.hab.sent, e)
    ensures Direct(ea) ==> e.tag.Some? && TxRel(ea, tx, net.hab.sent, e.tag.value)
  {
    var o := STminTimeout(ea, net.a.tx);
    STminTimeoutKeeps(ea, net.a.tx);
    TransmitShape(ea, net.a.tx);
    if Direct(ea) {
      TransmitSendsNext(ea, eb, net.a.tx, net.hab.sent, LastSent(AB(net)), o);
    } else {
      TransmitDiverted(ea, eb, net.a.tx, net.hab.sent, o);
    }
    e, tx := Entry(Carry(ToCANFrame(o.frames[0], ea.brs).value), ContinuationTag(ea, net)), o.tx;
    assert net.errors + o.errors == net.errors;
  }

  /** A frame that goes elsewhere keeps the direction in order. */
  lemma DivertedKeeps(ea: Env, eb: Env, d: Dir, e: Entry, tx: Tx)
    requires DirInv(ea, eb, d) && !Direct(ea) && e.tag == None && EntryOk(ea, eb, d.h.sent, e)
    ensures DirInv(ea, eb, Push(d, e).(tx := tx))
  {
    PushUntagged(ea, eb, d, e);
    PushPath(d, e);
    assert Path(Push(d, e).(tx := tx)) == Path(d);
  }

  lemma STminKeeps(ea: Env, eb: Env, net: Net)
    requires Linked(ea, eb) && NetInv(ea, eb, net) && CanAct(ea, eb, net, STminTimer)
    ensures NetInv(ea, eb, ActA(ea, eb, net, STminTimer))
  {
    var e, tx := STminActs(ea, eb, net);
    var net' := ActA(ea, eb, net, STminTimer);
    assert AB(net') == Push(AB(net), e).(tx := tx) && BA(net') == BA(net);
    if Direct(ea) {
      PushContinuation(ea, eb, AB(net), e.frame, tx);
    } else {
      DivertedKeeps(ea, eb, AB(net), e, tx);
    }
  }

  lemma FCTimerKeeps(ea: Env, eb: Env, net: Net)
    requires Linked(ea, eb) && NetInv(ea, eb, net) && CanAct(ea, eb, net, FCTimer)
    ensures NetInv(ea, eb, ActA(ea, eb, net, FCTimer))
  {
    var net' := ActA(ea, eb, net, FCTimer);
    TxRelKept(ea, net.a.tx, net'.a.tx, net.hab.sent, LastSent(AB(net)));
    assert AB(net') == AB(net).(tx := net'.a.tx) && BA(net') == BA(net);
  }

  lemma CFTimerKeeps(ea: Env, eb: Env, net: Net)
    requires Linked(ea, eb) && NetInv(ea, eb, net) && CanAct(ea, eb, net, CFTimer)
    ensures NetInv(ea, eb, ActA(ea, eb, net, CFTimer))
  {
    var net', d, c := ActA(ea, eb, net, CFTimer), BA(net), net.hba.consumed;
    assert AB(net') == AB(net) && BA(net') == d.(rx := net'.a.rx);
    SubsequenceGrow(d.h.delivered, d.h.sent, Settled(d.rx, c), Settled(net'.a.rx, c));
  }

  // ---------- the receive half of a step ----------

  lemma SingleFrameReceives(es: Env, er: Env, d: Dir, t: Tag, data: Bytes, room: bool)
    requires DirInv(es, er, d) && RxInv(er, d.rx)
    requires TagOk(es, d.h.sent, t) && PduMatches(es, d.h.sent[t.k], t, SingleFrame(data))
    ensures var o := HandleSingleFrame(d.rx, data, room);
            Receives(d, t, o.rx, o.deliveries) && forall e :: e in o.errors ==> !e.SequenceMismatch?
  {
  }

  lemma FirstFrameReceives(es: Env, er: Env, d: Dir, t: Tag, total: nat, data: Bytes)
    requires DirInv(es, er, d) && RxInv(er, d.rx)
    requires TagOk(es, d.h.sent, t) && PduMatches(es, d.h.sent[t.k], t, FirstFrame(total, data))
    ensures var o := HandleFirstFrame(er, d.rx, total, data);
            Receives(d, t, o.rx, o.deliveries) && forall e :: e in o.errors ==> !e.SequenceMismatch?
  {
  }

  /** The prefix grows by exactly the bytes of the frame, and the sequence numbers agree. */
  lemma ConsecutiveFrameReceives(es: Env, er: Env, d: Dir, t: Tag, sn: nat, data: Bytes, room: bool)
    requires RxRel(d.rx, d.h.sent, d.h.consumed) && RxInv(er, d.rx) && Follows(d.h.sent, d.h.consumed, t)
    requires TagOk(es, d.h.sent, t) && PduMatches(es, d.h.sent[t.k], t, ConsecutiveFrame(sn, data))
    ensures var o := HandleConsecutiveFrame(er, d.rx, sn, data, room);
            Receives(d, t, o.rx, o.deliveries) && forall e :: e in o.errors ==> !e.SequenceMismatch?
  {
    if d.rx.state == WaitCF {
      var p := d.h.sent[t.k];
      var take := Min(|data|, |p| - |d.rx.buffer|);
      assert take == t.end - t.start;
      assert p[..t.start] + p[t.start..t.end] == p[..t.end];
      assert d.rx.buffer + data[..take] == p[..t.end];
      assert t.end == |p| ==> p[..t.end] == p;
      NextNumber(t.i);
    }
  }

  lemma DataReceives(es: Env, er: Env, d: Dir, room: bool)
    requires DirInv(es, er, d) && RxInv(er, d.rx) && d.queue != [] && d.queue[0].tag.Some?
    ensures Decoded(er, d.queue[0].frame).Some? && !Decoded(er, d.queue[0].frame).value.FlowControlFrame?
    ensures var t, pdu := d.queue[0].tag.value, Decoded(er, d.queue[0].frame).value;
            0 <= t.k < |d.h.sent|
            && forall tx :: var o := HandlePDU(er, Session(tx, d.rx), pdu, room);
                 && o.s.tx == tx && Receives(d, t, o.s.rx, o.deliveries)
                 && forall e :: e in o.errors ==> !e.SequenceMismatch?
  {
    assert EntryOk(es, er, d.h.sent, d.queue[0]);
    PopPath(d);
    assert Follows(d.h.sent, Path(d)[0], Path(d)[1]);
    var t, pdu := d.queue[0].tag.value, Decoded(er, d.queue[0].frame).value;
    match pdu
    case SingleFrame(data) => SingleFrameReceives(es, er, d, t, data, room);
    case FirstFrame(total, data) => FirstFrameReceives(es, er, d, t, total, data);
    case ConsecutiveFrame(sn, data) => ConsecutiveFrameReceives(es, er, d, t, sn, data, room);
  }

  /** The frame an automatic flow control puts on the queue is not data. */
  lemma EmitFlowControl(es: Env, er: Env, d: Dir)
    requires Matched(es, er) && DirInv(es, er, d)
    ensures DirInv(es, er, d.(queue := Emit(es, d.queue, FlowControlMsgs(es), None)))
  {
    if !es.cfg.manualFlowControl {
      FlowControlArrives(es, er);
      var e := Entry(Carry(ToCANFrame(FlowControlMsgs(es)[0], es.brs).value), None);
      PushUntagged(es, er, d, e);
    }
  }

  /** A receive handler emits nothing or one automatic flow control. */
  lemma ReceiveEmits(env: Env, s: Session, pdu: PDU, room: bool)
    requires Inv(env, s)
    ensures var o := HandlePDU(env, s, pdu, room);
            o.frames == [] || o.frames == FlowControlMsgs(env)
  {
  }

  lemma TakeDataKeeps(ea: Env, eb: Env, net: Net, room: bool)
    requires Linked(ea, eb) && NetInv(ea, eb, net) && net.ba != [] && net.ba[0].tag.Some?
    ensures NetInv(ea, eb, TakeFrame(ea, net, room))
  {
    var d, net' := BA(net), TakeFrame(ea, net, room);
    DataReceives(eb, ea, d, room);
    var pdu := Decoded(ea, net.ba[0].frame).value;
    var msg := FromCANFrame(net.ba[0].frame).value;
    var o := HandlePDU(ea, net.a, pdu, room);
    assert Step(ea, net.a, Incoming(msg, room)) == o;
    assert net.a == Session(net.a.tx, d.rx);
    PopTagged(eb, ea, d, o.s.rx, o.deliveries);
    StepKeepsInv(ea, net.a, Incoming(msg, room));
    ReceiveEmits(ea, net.a, pdu, room);
    EmitFlowControl(ea, eb, AB(net));
    assert AB(net') == AB(net) || AB(net') == AB(net).(queue := Emit(ea, net.ab, FlowControlMsgs(ea), None));
    assert BA(net') == Pop(d).(rx := o.s.rx, h := Pop(d).h.(delivered := Pop(d).h.delivered + o.deliveries));
  }

  /** A frame that decodes to nothing or to flow control leaves the receive half alone, and
      the transmit half active at the same place or stopped. */
  lemma UntaggedStep(env: Env, s: Session, msg: LinkFrame, room: bool)
    requires Inv(env, s)
    requires msg.arbitrationID == env.rxID && ParseFrame(msg.data).Ok? ==>
               ParseFrame(msg.data).value.FlowControlFrame?
    ensures var o := Step(env, s, Incoming(msg, room));
            && Inv(env, o.s) && o.s.rx == s.rx && o.frames == [] && o.deliveries == []
            && (o.s.tx.state == Idle
                || (s.tx.state != Idle && o.s.tx.buffer == s.tx.buffer && o.s.tx.seqNum == s.tx.seqNum))
            && forall e :: e in o.errors ==> !e.SequenceMismatch?
  {
  }

  /** What taking an untagged frame leaves. */
  lemma UntaggedActs(ea: Env, eb: Env, net: Net, room: bool) returns (tx: Tx, errors: seq<Error>)
    requires Linked(ea, eb) && NetInv(ea, eb, net) && net.ba != [] && net.ba[0].tag.None?
    ensures TakeFrame(ea, net, room) == net.(a := net.a.(tx := tx), ba := net.ba[1..], errors := net.errors + errors)
    ensures TxInv(ea, tx) && forall e :: e in errors ==> !e.SequenceMismatch?
    ensures tx.state == Idle
            || (net.a.tx.state != Idle && tx.buffer == net.a.tx.buffer && tx.seqNum == net.a.tx.seqNum)
  {
    assert EntryOk(eb, ea, net.hba.sent, net.ba[0]);
    match FromCANFrame(net.ba[0].frame)
    case None =>
      tx, errors := net.a.tx, [];
      assert net.errors + [] == net.errors;
    case Some(msg) =>
      UntaggedStep(ea, net.a, msg, room);
      var o := Step(ea, net.a, Incoming(msg, room));
      tx, errors := o.s.tx, o.errors;
      assert net.hba.delivered + o.deliveries == net.hba.delivered;
  }

  /** An untagged frame is ignored, unparseable, or flow control: data stays as it was. */
  lemma TakeUntaggedKeeps(ea: Env, eb: Env, net: Net, room: bool)
    requires Linked(ea, eb) && NetInv(ea, eb, net) && net.ba != [] && net.ba[0].tag.None?
    ensures NetInv(ea, eb, TakeFrame(ea, net, room))
  {
    var tx, errors := UntaggedActs(ea, eb, net, room);
    var net' := TakeFrame(ea, net, room);
    PopUntagged(eb, ea, BA(net));
    TxRelKept(ea, net.a.tx, tx, net.hab.sent, LastSent(AB(net)));
    assert AB(net') == AB(net).(tx := tx) && BA(net') == Pop(BA(net));
  }

  /** An automatic flow control lets the waiting sender go on, at the pace its receiver asked for,
      with nothing lost of what is left to send. */
  lemma FlowControlSetsPace(er: Env, es: Env, s: Session, room: bool)
    requires Matched(er, es) && !er.cfg.manualFlowControl && Inv(es, s) && s.tx.state == WaitFC
    ensures var frame := ToCANFrame(FlowControlMsgs(er)[0], er.brs);
            && frame.Ok? && Decoded(es, Carry(frame.value)).Some?
            && var o := HandlePDU(es, s, Decoded(es, Carry(frame.value)).value, room);
               && o.s.tx.state == Transmit && o.s.tx.stTimer && !o.s.tx.fcTimer && o.s.rx == s.rx
               && o.s.tx.remoteBlockSize == er.cfg.blockSize && o.s.tx.remoteSTminUS == er.cfg.stMin * 1000
               && o.s.tx.blockCounter == 0 && o.s.tx.waitFrames == 0
               && o.s.tx.buffer == s.tx.buffer && o.s.tx.seqNum == s.tx.seqNum
               && o.frames == [] && o.errors == []
  {
    FlowControlArrives(er, es);
  }

  // ---------- every action ----------

  lemma ActKeeps(ea: Env, eb: Env, net: Net, act: Action)
    requires Linked(ea, eb) && NetInv(ea, eb, net) && CanAct(ea, eb, net, act)
    ensures NetInv(ea, eb, ActA(ea, eb, net, act))
  {
    match act
    case Start(p) => StartKeeps(ea, eb, net, p);
    case Take(room) =>
      if net.ba[0].tag.Some? {
        TakeDataKeeps(ea, eb, net, room);
      } else {
        TakeUntaggedKeeps(ea, eb, net, room);
      }
    case STminTimer => STminKeeps(ea, eb, net);
    case Inject(f) =>
      PushUntagged(ea, eb, AB(net), Entry(f, None));
      var net' := ActA(ea, eb, net, act);
      assert AB(net') == Push(AB(net), Entry(f, None)) && BA(net') == BA(net);
    case Switch(_) =>
    case FCTimer => FCTimerKeeps(ea, eb, net);
    case CFTimer => CFTimerKeeps(ea, eb, net);
  }

  // ---------- the transmit address ----------

  /** The connection as it is at one moment: the network and the transmit address each end has
      been switched to, if any. */
  datatype Conn = Conn(net: Net, addrA: Option<nat>, addrB: Option<nat>)

  const InitialConn := Conn(InitialNet, None, None)

  function At(env: Env, addr: Option<nat>): Env { env.(txAddress := addr) }

  predicate CanStepConn(ea: Env, eb: Env, c: Conn, side: Side, act: Action) {
    CanStep(At(ea, c.addrA), At(eb, c.addrB), c.net, side, act)
  }

  function StepConn(ea: Env, eb: Env, c: Conn, side: Side, act: Action): Conn
    requires CanStepConn(ea, eb, c, side, act)
  {
    Conn(StepNet(At(ea, c.addrA), At(eb, c.addrB), c.net, side, act),
         if side == A && act.Switch? then act.addr else c.addrA,
         if side == B && act.Switch? then act.addr else c.addrB)
  }

  /** Switches that cannot harm: all but those that make an active transfer reach the peer which did
      not reach it before. */
  predicate SafeSwitch(env: Env, tx: Tx, from: Option<nat>, to: Option<nat>) {
    tx.state == Idle || Direct(At(env, from)) || !Direct(At(env, to))
  }

  predicate SafeStep(ea: Env, eb: Env, c: Conn, side: Side, act: Action) {
    act.Switch? ==>
      match side
      case A => SafeSwitch(ea, c.net.a.tx, c.addrA, act.addr)
      case B => SafeSwitch(eb, c.net.b.tx, c.addrB, act.addr)
  }

  /** Two environments that differ in the transmit address at most. */
  predicate SameBase(e: Env, f: Env) { f == e.(txAddress := f.txAddress) }

  lemma EntryAddress(es: Env, er: Env, fs: Env, fr: Env, sent: seq<Bytes>, e: Entry)
    requires SameBase(es, fs) && SameBase(er, fr) && EntryOk(es, er, sent, e)
    ensures EntryOk(fs, fr, sent, e)
  {
    assert Decoded(er, e.frame) == Decoded(fr, e.frame);
  }

  /** Only the relation between the active sender and what it sent depends on the address. */
  lemma DirAddress(es: Env, er: Env, fs: Env, fr: Env, d: Dir)
    requires SameBase(es, fs) && SameBase(er, fr) && DirInv(es, er, d)
    requires TxRel(fs, d.tx, d.h.sent, LastSent(d))
    ensures DirInv(fs, fr, d)
  {
    forall e | e in d.queue ensures EntryOk(fs, fr, d.h.sent, e) {
      EntryAddress(es, er, fs, fr, d.h.sent, e);
    }
  }

  lemma NetAddress(ea: Env, eb: Env, fa: Env, net: Net)
    requires SameBase(ea, fa) && NetInv(ea, eb, net)
    requires TxRel(fa, net.a.tx, net.hab.sent, LastSent(AB(net)))
    ensures NetInv(fa, eb, net)
  {
    DirAddress(ea, eb, fa, eb, AB(net));
    DirAddress(eb, ea, eb, fa, BA(net));
  }

  lemma SwitchKeeps(ea: Env, eb: Env, net: Net, from: Option<nat>, to: Option<nat>)
    requires NetInv(At(ea, from), eb, net) && SafeSwitch(ea, net.a.tx, from, to)
    ensures NetInv(At(ea, to), eb, net)
  {
    assert TxRel(At(ea, from), net.a.tx, net.hab.sent, LastSent(AB(net)));
    NetAddress(At(ea, from), eb, At(ea, to), net);
  }

  // ---------- every step, every run ----------

  predicate ConnInv(ea: Env, eb: Env, c: Conn) {
    Linked(At(ea, c.addrA), At(eb, c.addrB)) && NetInv(At(ea, c.addrA), At(eb, c.addrB), c.net)
  }

  function SwapConn(c: Conn): Conn { Conn(Swap(c.net), c.addrB, c.addrA) }

  lemma ConnStepA(ea: Env, eb: Env, c: Conn, act: Action)
    requires ConnInv(ea, eb, c) && CanStepConn(ea, eb, c, A, act) && SafeStep(ea, eb, c, A, act)
    ensures ConnInv(ea, eb, StepConn(ea, eb, c, A, act))
  {
    ActKeeps(At(ea, c.addrA), At(eb, c.addrB), c.net, act);
    if act.Switch? { SwitchKeeps(ea, At(eb, c.addrB), c.net, c.addrA, act.addr); }
  }

  lemma StepKeeps(ea: Env, eb: Env, c: Conn, side: Side, act: Action)
    requires ConnInv(ea, eb, c) && CanStepConn(ea, eb, c, side, act) && SafeStep(ea, eb, c, side, act)
    ensures ConnInv(ea, eb, StepConn(ea, eb, c, side, act))
  {
    if side == A {
      ConnStepA(ea, eb, c, act);
    } else {
      ConnStepA(eb, ea, SwapConn(c), act);
    }
  }

  predicate StepsTo(ea: Env, eb: Env, c: Conn, side: Side, act: Action, d: Conn) {
    CanStepConn(ea, eb, c, side, act) && d == StepConn(ea, eb, c, side, act)
  }

  /** A stretch of steps, from any connection. */
  ghost predicate Stretch(ea: Env, eb: Env, cs: seq<Conn>, sides: seq<Side>, acts: seq<Action>) {
    && |cs| == |acts| + 1 == |sides| + 1
    && forall i :: 0 <= i < |acts| ==> StepsTo(ea, eb, cs[i], sides[i], acts[i], cs[i + 1])
  }

  ghost predicate ConnRun(ea: Env, eb: Env, cs: seq<Conn>, sides: seq<Side>, acts: seq<Action>) {
    Stretch(ea, eb, cs, sides, acts) && cs[0] == InitialConn
  }

  ghost predicate SafeSwitches(ea: Env, eb: Env, cs: seq<Conn>, sides: seq<Side>, acts: seq<Action>)
    requires |cs| == |acts| + 1 == |sides| + 1
  {
    forall i :: 0 <= i < |acts| ==> SafeStep(ea, eb, cs[i], sides[i], acts[i])
  }

  /** A stretch without its last step, and that step. */
  lemma StretchFront(ea: Env, eb: Env, cs: seq<Conn>, sides: seq<Side>, acts: seq<Action>)
    requires Stretch(ea, eb, cs, sides, acts) && acts != []
    ensures var n := |acts| - 1;
            Stretch(ea, eb, cs[..n + 1], sides[..n], acts[..n]) && StepsTo(ea, eb, cs[n], sides[n], acts[n], cs[n + 1])
  {
    var n := |acts| - 1;
    assert StepsTo(ea, eb, cs[n], sides[n], acts[n], cs[n + 1]);
    forall i | 0 <= i < n ensures StepsTo(ea, eb, cs[..n + 1][i], sides[..n][i], acts[..n][i], cs[..n + 1][i + 1]) {
      assert StepsTo(ea, eb, cs[i], sides[i], acts[i], cs[i + 1]);
    }
  }

  lemma {:induction false} RunKeepsInv(ea: Env, eb: Env, cs: seq<Conn>, sides: seq<Side>, acts: seq<Action>)
    requires Linked(ea, eb) && ConnRun(ea, eb, cs, sides, acts) && SafeSwitches(ea, eb, cs, sides, acts)
    ensures ConnInv(ea, eb, cs[|acts|])
    decreases |acts|
  {
    var n := |acts| - 1;
    if acts == [] {
      assert Path(AB(InitialNet)) == [NOTHING] && Path(BA(InitialNet)) == [NOTHING];
    } else {
      StretchFront(ea, eb, cs, sides, acts);
      RunKeepsInv(ea, eb, cs[..n + 1], sides[..n], acts[..n]);
      StepKeeps(ea, eb, cs[n], sides[n], acts[n]);
    }
  }

  /** What the peer delivered is what was started, in order, with gaps at most. */
  lemma DirectionSafe(es: Env, er: Env, d: Dir)
    requires DirInv(es, er, d)
    ensures Subsequence(d.h.delivered, d.h.sent)
  {
    SubsequenceGrow(d.h.delivered, d.h.sent, Settled(d.rx, d.h.consumed), |d.h.sent|);
    assert d.h.sent[..|d.h.sent|] == d.h.sent;
  }

  /** Main safety theorem: in every run, whatever addresses the ends are switched to as long as no
      switch turns an active transfer back to the peer, the payloads delivered at each end are an
      in-order subsequence of the payloads the other end started, no sequence mismatch is ever
      reported, and every state's handlers stay in range. */
  lemma EndToEndSafety(ea: Env, eb: Env, cs: seq<Conn>, sides: seq<Side>, acts: seq<Action>)
    requires Linked(ea, eb) && ConnRun(ea, eb, cs, sides, acts) && SafeSwitches(ea, eb, cs, sides, acts)
    ensures var net := cs[|acts|].net;
            && Subsequence(net.hab.delivered, net.hab.sent)
            && Subsequence(net.hba.delivered, net.hba.sent)
            && (forall e :: e in net.errors ==> !e.SequenceMismatch?)
            && Safe(net.a) && Safe(net.b)
  {
    RunKeepsInv(ea, eb, cs, sides, acts);
    var c := cs[|acts|];
    DirectionSafe(At(ea, c.addrA), At(eb, c.addrB), AB(c.net));
    DirectionSafe(At(eb, c.addrB), At(ea, c.addrA), BA(c.net));
  }

  /** The excluded empty payload is a real exception, not a convenience: started by an idle sender on
      classic CAN with a padding byte `b`, it is delivered as itself exactly when `b` is 0 or there
      is no padding, is lost to a parse error when `b` exceeds 6, and otherwise arrives as `b` copies of `b`. */
  lemma EmptyPayloadException(ea: Env, eb: Env, tx: Tx, rx: Rx)
    requires Connected(ea, eb) && RxInv(eb, rx)
    ensures var frame := Carry(ToCANFrame(InitiateTx(ea, tx, []).frames[0], ea.brs).value);
            var got := Decoded(eb, frame);
            && (got == Some(SingleFrame([])) <==> !ea.fd ==> ea.cfg.paddingByte in {None, Some(0)})
            && (Unparseable(ea, []) <==> got == None)
            && (Misread(ea, []) ==>
                  var b := ea.cfg.paddingByte.value;
                  HandlePDU(eb, Session(tx, rx), got.value, true).deliveries == [Fill(b, b)])
  {
    SingleFrameArrives(ea, eb, []);
    if Misread(ea, []) {
      var b := ea.cfg.paddingByte.value;
      assert |Fill(b, b)| == b;
    }
  }
}
