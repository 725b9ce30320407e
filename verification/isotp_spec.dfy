/** Value-level meaning of one ISO-TP session: the transmit half, the receive half, and
    each arm of the select loop as one step (isotp/stack.go, tx_handler.go, rx_handler.go). */
module IsoTpSpec {
  import opened Basics
  import opened Framing
  import opened Pdu
  import opened Link

  datatype Config = Config(manualFlowControl: bool, paddingByte: Option<byte>,
                           blockSize: nat, stMin: nat, maxPayloadSize: nat, maxWaitFrames: int)

  /** What `Config.Validate` accepts. */
  predicate ValidConfig(c: Config) {
    c.blockSize <= 255 && c.stMin <= 127
  }

  /** The part of a session that no step changes; `txAddress` is only set by SetTxAddress. */
  datatype Env = Env(cfg: Config, fd: bool, brs: bool, txID: nat, rxID: nat, txAddress: Option<nat>)

  predicate ValidEnv(env: Env) {
    && ValidConfig(env.cfg) && env.txID <= 0x7FF && env.rxID <= 0x7FF
    && (env.txAddress.Some? ==> env.txAddress.value <= 0x7FF)
  }

  datatype State = Idle | WaitFC | WaitCF | Transmit

  datatype Tx = Tx(state: State, buffer: Bytes, frameLen: nat, seqNum: nat, blockCounter: nat,
                   waitFrames: nat, remoteBlockSize: nat, remoteSTminUS: nat,
                   fcTimer: bool, stTimer: bool)

  datatype Rx = Rx(state: State, buffer: Bytes, frameLen: nat, seqNum: nat, blockCounter: nat, cfTimer: bool)

  datatype Error =
    | ParseFailed(e: ParseError) | CFTimedOut | FCTimedOut
    | InterruptedBySF | InterruptedByFF | RxQueueFull
    | BadFirstFrameLength | PayloadTooLarge | SequenceMismatch(expected: nat, got: nat)
    | TooManyWaits | RemoteOverflow | InvalidFlowStatus | EncodingFailed

  datatype TxOut = TxOut(tx: Tx, frames: seq<LinkFrame>, errors: seq<Error>)

  datatype RxOut = RxOut(rx: Rx, frames: seq<LinkFrame>, deliveries: seq<Bytes>, errors: seq<Error>)

  // ---------- transmit half ----------

  /** The remote block size and STmin survive: only the next flow control overwrites them. */
  function StopSending(tx: Tx): Tx {
    Tx(Idle, [], 0, 0, 0, 0, tx.remoteBlockSize, tx.remoteSTminUS, false, false)
  }

  function DataID(env: Env): nat {
    if env.txAddress.Some? then env.txAddress.value else env.txID
  }

  /** Data frames go to the peer's own identifier. */
  predicate Direct(env: Env) { DataID(env) == env.txID }

  /** makeTxMsg: data frames go to the switched transmit address when there is one. */
  function DataMsg(env: Env, data: Bytes): LinkFrame {
    LinkFrame(DataID(env), Padded(env.cfg.paddingByte, env.fd, data), env.fd)
  }

  function SFPciSize(n: nat): nat { if n > 7 then 2 else 1 }

  function FFPciSize(n: nat): nat { if n > 4095 then 6 else 2 }

  predicate FitsSingleFrame(env: Env, n: nat) {
    n + SFPciSize(n) <= FrameDataLength(env.fd)
  }

  function FirstChunkSize(env: Env, n: nat): nat {
    FrameDataLength(env.fd) - FFPciSize(n)
  }

  function InitiateTx(env: Env, tx: Tx, payload: Bytes): TxOut {
    var t := tx.(buffer := payload, frameLen := |payload|);
    var max := FrameDataLength(env.fd);
    if FitsSingleFrame(env, |payload|) then
      match CreateSingleFrame(payload, max)
      case Err(_) => TxOut(StopSending(t), [], [EncodingFailed])
      case Ok(data) => TxOut(StopSending(t), [DataMsg(env, data)], [])
    else
      var chunkSize := FirstChunkSize(env, |payload|);
      match CreateFirstFrame(payload[..chunkSize], |payload|, max)
      case Err(_) => TxOut(StopSending(t), [], [EncodingFailed])
      case Ok(data) =>
        TxOut(t.(buffer := payload[chunkSize..], seqNum := 1, state := WaitFC, fcTimer := true),
              [DataMsg(env, data)], [])
  }

  function HandleFlowControl(env: Env, tx: Tx, flowStatus: byte, blockSize: nat, stMinUS: nat): TxOut {
    if tx.state != WaitFC then TxOut(tx, [], [])
    else if flowStatus == CONTINUE_TO_SEND then
      TxOut(tx.(fcTimer := false, stTimer := true, remoteBlockSize := blockSize, remoteSTminUS := stMinUS,
                state := Transmit, blockCounter := 0, waitFrames := 0), [], [])
    else if flowStatus == WAIT then
      var waits := tx.waitFrames + 1;
      if env.cfg.maxWaitFrames >= 0 && waits > env.cfg.maxWaitFrames
      then TxOut(StopSending(tx), [], [TooManyWaits])
      else TxOut(tx.(waitFrames := waits, fcTimer := true), [], [])
    else if flowStatus == OVERFLOW then TxOut(StopSending(tx), [], [RemoteOverflow])
    else TxOut(StopSending(tx), [], [InvalidFlowStatus])
  }

  function HandleTransmit(env: Env, tx: Tx): TxOut {
    if tx.buffer == [] then TxOut(StopSending(tx), [], [])
    else
      var size := Min(FrameDataLength(env.fd) - 1, |tx.buffer|);
      match CreateConsecutiveFrame(tx.buffer[..size], tx.seqNum)
      case Err(_) => TxOut(StopSending(tx), [], [EncodingFailed])
      case Ok(data) =>
        var t := tx.(buffer := tx.buffer[size..], seqNum := (tx.seqNum + 1) % 16,
                     blockCounter := tx.blockCounter + 1);
        var msg := DataMsg(env, data);
        if t.buffer == [] then TxOut(StopSending(t), [msg], [])
        else if t.remoteBlockSize > 0 && t.blockCounter >= t.remoteBlockSize
        then TxOut(t.(state := WaitFC, fcTimer := true), [msg], [])
        else TxOut(t.(stTimer := true), [msg], [])
  }

  function FCTimeout(tx: Tx): TxOut {
    TxOut(StopSending(tx), [], [FCTimedOut])
  }

  function STminTimeout(env: Env, tx: Tx): TxOut {
    var t := tx.(stTimer := false);
    if t.state != Transmit then TxOut(t, [], []) else HandleTransmit(env, t)
  }

  // ---------- receive half ----------

  function StopReceiving(rx: Rx): Rx {
    Rx(Idle, [], 0, 0, 0, false)
  }

  /** Automatic flow control, always on the base address; nothing in manual mode. */
  function FlowControlMsgs(env: Env): seq<LinkFrame> {
    if env.cfg.manualFlowControl then []
    else [LinkFrame(env.txID,
                    Padded(env.cfg.paddingByte, env.fd,
                           CreateFlowControl(CONTINUE_TO_SEND, env.cfg.blockSize, env.cfg.stMin)),
                    env.fd)]
  }

  function Deliver(rx: Rx, payload: Bytes, room: bool, errors: seq<Error>): RxOut {
    if room then RxOut(StopReceiving(rx), [], [payload], errors)
    else RxOut(StopReceiving(rx), [], [], errors + [RxQueueFull])
  }

  function HandleSingleFrame(rx: Rx, data: Bytes, room: bool): RxOut {
    Deliver(rx, data, room, if rx.state != Idle then [InterruptedBySF] else [])
  }

  function HandleFirstFrame(env: Env, rx: Rx, totalSize: nat, data: Bytes): RxOut {
    var errors := if rx.state != Idle then [InterruptedByFF] else [];
    var r := StopReceiving(rx);
    if totalSize <= |data| then RxOut(r, [], [], errors + [BadFirstFrameLength])
    else if totalSize > env.cfg.maxPayloadSize then RxOut(r, [], [], errors + [PayloadTooLarge])
    else RxOut(r.(frameLen := totalSize, buffer := data, state := WaitCF, seqNum := 1, cfTimer := true),
               FlowControlMsgs(env), [], errors)
  }

  function HandleConsecutiveFrame(env: Env, rx: Rx, seqNum: nat, data: Bytes, room: bool): RxOut
    requires rx.state == WaitCF ==> |rx.buffer| < rx.frameLen
  {
    if rx.state != WaitCF then RxOut(rx, [], [], [])
    else if seqNum != rx.seqNum then
      RxOut(StopReceiving(rx), [], [], [SequenceMismatch(rx.seqNum, seqNum)])
    else
      var toReceive := rx.frameLen - |rx.buffer|;
      var buffer := rx.buffer + data[..Min(|data|, toReceive)];
      var r := rx.(cfTimer := true, seqNum := (rx.seqNum + 1) % 16, buffer := buffer);
      if |buffer| >= rx.frameLen then Deliver(r, buffer, room, [])
      else
        var count := rx.blockCounter + 1;
        if env.cfg.blockSize > 0 && count >= env.cfg.blockSize
        then RxOut(r.(blockCounter := 0), FlowControlMsgs(env), [], [])
        else RxOut(r.(blockCounter := count), [], [], [])
  }

  function CFTimeout(rx: Rx): RxOut {
    RxOut(StopReceiving(rx), [], [], [CFTimedOut])
  }

  // ---------- one arm of the select loop ----------

  datatype Session = Session(tx: Tx, rx: Rx)

  /** `room` says whether the receive queue has space when the frame arrives. */
  datatype Event =
    | Incoming(msg: LinkFrame, room: bool)
    | Payload(data: Bytes)
    | CFTimerFires
    | FCTimerFires
    | STminTimerFires

  datatype Out = Out(s: Session, frames: seq<LinkFrame>, deliveries: seq<Bytes>, errors: seq<Error>)

  /** A payload is only taken in Idle; an event of a stopped timer cannot occur. */
  predicate Enabled(s: Session, ev: Event) {
    match ev
    case Incoming(_, _) => true
    case Payload(_) => s.tx.state == Idle
    case CFTimerFires => s.rx.cfTimer
    case FCTimerFires => s.tx.fcTimer
    case STminTimerFires => s.tx.stTimer
  }

  function FromTx(s: Session, o: TxOut): Out {
    Out(s.(tx := o.tx), o.frames, [], o.errors)
  }

  function FromRx(s: Session, o: RxOut): Out {
    Out(s.(rx := o.rx), o.frames, o.deliveries, o.errors)
  }

  function HandlePDU(env: Env, s: Session, pdu: PDU, room: bool): Out
    requires s.rx.state == WaitCF ==> |s.rx.buffer| < s.rx.frameLen
  {
    match pdu
    case FlowControlFrame(fs, bs, st) => FromTx(s, HandleFlowControl(env, s.tx, fs, bs, st))
    case SingleFrame(data) => FromRx(s, HandleSingleFrame(s.rx, data, room))
    case FirstFrame(total, data) => FromRx(s, HandleFirstFrame(env, s.rx, total, data))
    case ConsecutiveFrame(sn, data) => FromRx(s, HandleConsecutiveFrame(env, s.rx, sn, data, room))
  }

  function ProcessRx(env: Env, s: Session, msg: LinkFrame, room: bool): Out
    requires s.rx.state == WaitCF ==> |s.rx.buffer| < s.rx.frameLen
  {
    if msg.arbitrationID != env.rxID then Out(s, [], [], [])
    else match ParseFrame(msg.data)
         case Err(e) => Out(s, [], [], [ParseFailed(e)])
         case Ok(pdu) => HandlePDU(env, s, pdu, room)
  }

  function Step(env: Env, s: Session, ev: Event): Out
    requires s.rx.state == WaitCF ==> |s.rx.buffer| < s.rx.frameLen
  {
    match ev
    case Incoming(msg, room) => ProcessRx(env, s, msg, room)
    case Payload(data) => FromTx(s, InitiateTx(env, s.tx, data))
    case CFTimerFires => FromRx(s, CFTimeout(s.rx))
    case FCTimerFires => FromTx(s, FCTimeout(s.tx))
    case STminTimerFires => FromTx(s, STminTimeout(env, s.tx))
  }

  // ---------- a session that is being closed ----------

  /** What is left of a transmit step whose frame could not be handed over. */
  function TxUnless(o: TxOut, sent: bool): TxOut {
    if sent || o.frames == [] then o else TxOut(StopSending(o.tx), [], o.errors)
  }

  /** The same for a receive step and its flow control. */
  function RxUnless(o: RxOut, sent: bool): RxOut {
    if sent || o.frames == [] then o else RxOut(StopReceiving(o.rx), [], o.deliveries, o.errors)
  }

  /** HandlePDU when a frame it sends is handed over only if `sent`: a closing session may fail to. */
  function HandlePDUSending(env: Env, s: Session, pdu: PDU, room: bool, sent: bool): Out
    requires s.rx.state == WaitCF ==> |s.rx.buffer| < s.rx.frameLen
  {
    match pdu
    case FirstFrame(total, data) => FromRx(s, RxUnless(HandleFirstFrame(env, s.rx, total, data), sent))
    case ConsecutiveFrame(sn, data) => FromRx(s, RxUnless(HandleConsecutiveFrame(env, s.rx, sn, data, room), sent))
    case _ => HandlePDU(env, s, pdu, room)
  }

  function ProcessRxSending(env: Env, s: Session, msg: LinkFrame, room: bool, sent: bool): Out
    requires s.rx.state == WaitCF ==> |s.rx.buffer| < s.rx.frameLen
  {
    if msg.arbitrationID != env.rxID then Out(s, [], [], [])
    else match ParseFrame(msg.data)
         case Err(e) => Out(s, [], [], [ParseFailed(e)])
         case Ok(pdu) => HandlePDUSending(env, s, pdu, room, sent)
  }

  function StepSending(env: Env, s: Session, ev: Event, sent: bool): Out
    requires s.rx.state == WaitCF ==> |s.rx.buffer| < s.rx.frameLen
  {
    match ev
    case Incoming(msg, room) => ProcessRxSending(env, s, msg, room, sent)
    case Payload(data) => FromTx(s, TxUnless(InitiateTx(env, s.tx, data), sent))
    case STminTimerFires => FromTx(s, TxUnless(STminTimeout(env, s.tx), sent))
    case _ => Step(env, s, ev)
  }

  const IdleTx := Tx(Idle, [], 0, 0, 0, 0, 0, 0, false, false)
  const IdleRx := Rx(Idle, [], 0, 0, 0, false)
  const NewSession := Session(IdleTx, IdleRx)
}
