/** The ISO-TP session as the object it is: state updated in place by the handlers
    (isotp/stack.go, tx_handler.go, rx_handler.go), each handler proved against IsoTpSpec.
    The transmit fields and timers of the source's struct are the components of `tx`, the
    receive fields and timer those of `rx`. */
module SessionObject {
  import opened Basics
  import opened Framing
  import opened Pdu
  import opened Link
  import Spec = IsoTpSpec
  import opened SessionConfig
  import opened SessionInvariant

  const QUEUE := 10

  /** A step delivers at most one payload, and only into a queue with room. */
  lemma DeliversAtMostOne(env: Spec.Env, s: Spec.Session, ev: Spec.Event)
    requires Inv(env, s)
    ensures var d := Spec.Step(env, s, ev).deliveries;
            d == [] || (|d| == 1 && ev.Incoming? && ev.room)
  {
  }

  datatype SendResult = Queued | TooLarge | Closed | Cancelled | Waits

  class Session {
    const cfg: Spec.Config
    const fd: bool
    const brs: bool
    const txID: nat
    const rxID: nat
    var txAddress: Option<nat>

    var tx: Spec.Tx
    var rx: Spec.Rx
    var rxDataChan: seq<Bytes>
    var txDataChan: seq<Bytes>
    /** Every error raised so far, and every frame handed to the transmit channel so far. */
    var errorChan: seq<Spec.Error>
    var txChan: seq<LinkFrame>
    /** Until the loop of `run` ends. */
    var running: bool

    function Env(): Spec.Env reads this {
      Spec.Env(cfg, fd, brs, txID, rxID, txAddress)
    }

    function Value(): Spec.Session reads this {
      Spec.Session(tx, rx)
    }

    predicate Room() reads this { |rxDataChan| < QUEUE }

    predicate Valid() reads this {
      (running ==> Inv(Env(), Value())) && |rxDataChan| <= QUEUE && |txDataChan| <= QUEUE
    }

    constructor (cfg: Spec.Config, fd: bool, brs: bool, txID: nat, rxID: nat)
      ensures Valid() && running && Value() == Spec.NewSession
      ensures Env() == Spec.Env(cfg, fd, brs, txID, rxID, None)
      ensures rxDataChan == [] && txDataChan == [] && errorChan == [] && txChan == []
    {
      this.cfg, this.fd, this.brs, this.txID, this.rxID := cfg, fd, brs, txID, rxID;
      txAddress := None;
      rxDataChan, txDataChan, errorChan, txChan := [], [], [], [];
      tx, rx, running := Spec.IdleTx, Spec.IdleRx, true;
    }

    /** Only the transmit identifier of the address is used. */
    method SetTxAddress(addr: Option<Address>) returns (ok: bool)
      modifies this`txAddress
      ensures ok <==> (addr.Some? ==> ValidAddress(addr.value))
      ensures txAddress == if !ok then old(txAddress) else if addr.Some? then Some(addr.value.txID) else None
    {
      if addr.None? {
        txAddress := None;
        return true;
      }
      if !ValidAddress(addr.value) { return false; }
      txAddress := Some(addr.value.txID);
      return true;
    }

    /** Queues a payload within the configured limit. `closing` says whether the session is being closed,
        `cancelled` whether the caller's context is done, and `pick` decides when a cancelled caller
        also finds room; a caller that finds none of the three waits. */
    method SendContext(data: Bytes, closing: bool, cancelled: bool, pick: bool) returns (r: SendResult)
      modifies this`txDataChan
      ensures r == TooLarge <==> |data| > cfg.maxPayloadSize
      ensures r == Closed <==> |data| <= cfg.maxPayloadSize && closing
      ensures r == Queued ==> |old(txDataChan)| < 10 && (cancelled ==> pick)
      ensures r == Cancelled ==> cancelled && (|old(txDataChan)| < 10 ==> !pick)
      ensures r == Waits <==> |data| <= cfg.maxPayloadSize && !closing && !cancelled && |old(txDataChan)| >= 10
      ensures txDataChan == if r == Queued then old(txDataChan) + [data] else old(txDataChan)
    {
      if |data| > cfg.maxPayloadSize { return TooLarge; }
      if closing { return Closed; }
      if |txDataChan| < QUEUE && (!cancelled || pick) {
        txDataChan := txDataChan + [data];
        return Queued;
      }
      return if cancelled then Cancelled else Waits;
    }

    method FireError(e: Spec.Error)
      modifies this`errorChan
      ensures errorChan == old(errorChan) + [e]
    {
      errorChan := errorChan + [e];
    }

    method StopReceiving()
      modifies this`rx
      ensures rx == Spec.IdleRx
    {
      rx := rx.(state := Spec.Idle, buffer := [], frameLen := 0, seqNum := 0, blockCounter := 0);
      rx := rx.(cfTimer := false);
    }

    method StopSending()
      modifies this`tx
      ensures tx == Spec.StopSending(old(tx))
    {
      tx := tx.(state := Spec.Idle, buffer := [], frameLen := 0, seqNum := 0, blockCounter := 0, waitFrames := 0);
      tx := tx.(fcTimer := false);
      tx := tx.(stTimer := false);
    }

    /** sendMessage: fails only while the session is being closed. */
    method SendMessage(msg: LinkFrame, sent: bool)
      modifies this`txChan
      ensures txChan == old(txChan) + if sent then [msg] else []
    {
      if sent { txChan := txChan + [msg]; }
    }

    method SendData(data: Bytes, sent: bool)
      modifies this`txChan
      ensures txChan == old(txChan) + if sent then [Spec.DataMsg(Env(), data)] else []
    {
      var msg := MakeTxMsg(cfg.paddingByte, fd, if txAddress.Some? then txAddress.value else txID, data);
      SendMessage(msg, sent);
    }

    /** The frame goes to the base address whatever the transmit address is. */
    method SendFlowControl(status: byte, sent: bool) returns (ok: bool)
      requires status < 16
      modifies this`txChan
      ensures ok == (sent || cfg.manualFlowControl)
      ensures var data := CreateFlowControl(status, cfg.blockSize, cfg.stMin);
              var msg := LinkFrame(txID, Padded(cfg.paddingByte, fd, data), fd);
              txChan == old(txChan) + if cfg.manualFlowControl || !sent then [] else [msg]
    {
      if cfg.manualFlowControl { return true; }
      var msg := MakeTxMsg(cfg.paddingByte, fd, txID, CreateFlowControl(status, cfg.blockSize, cfg.stMin));
      SendMessage(msg, sent);
      return sent;
    }

    method InitiateTx(payload: Bytes, sent: bool)
      requires tx.state == Spec.Idle
      modifies this`tx, this`txChan, this`errorChan
      ensures var o := Spec.TxUnless(Spec.InitiateTx(Env(), old(tx), payload), sent);
              tx == o.tx && txChan == old(txChan) + o.frames && errorChan == old(errorChan) + o.errors
    {
      tx := tx.(buffer := payload, frameLen := |payload|);
      var maxDataLength := FrameDataLength(fd);
      var sfPciSize := if tx.frameLen > 7 then 2 else 1;
      if tx.frameLen + sfPciSize <= maxDataLength {
        var data := CreateSingleFrame(payload, maxDataLength);
        assert data.Ok?;  // the source's error branch is dead: the PCI size was counted above
        SendData(data.value, sent);
        StopSending();
      } else {
        var ffPciSize := if tx.frameLen > 4095 then 6 else 2;
        var chunkSize := maxDataLength - ffPciSize;
        var firstChunk := tx.buffer[..chunkSize];
        tx := tx.(buffer := tx.buffer[chunkSize..]);
        var data := CreateFirstFrame(firstChunk, tx.frameLen, maxDataLength);
        assert data.Ok?;  // dead error branch, as above
        tx := tx.(seqNum := 1);
        tx := tx.(state := Spec.WaitFC);
        SendData(data.value, sent);
        if !sent {
          StopSending();
          return;
        }
        tx := tx.(fcTimer := true);
      }
    }

    method HandleTxFlowControl(flowStatus: byte, blockSize: nat, stMinUS: nat)
      modifies this`tx, this`errorChan
      ensures var o := Spec.HandleFlowControl(Env(), old(tx), flowStatus, blockSize, stMinUS);
              tx == o.tx && o.frames == [] && errorChan == old(errorChan) + o.errors
    {
      if tx.state != Spec.WaitFC { return; }
      if flowStatus == CONTINUE_TO_SEND {
        tx := tx.(fcTimer := false);
        tx := tx.(stTimer := false);
        tx := tx.(remoteBlockSize := blockSize, remoteSTminUS := stMinUS);
        tx := tx.(state := Spec.Transmit, blockCounter := 0, waitFrames := 0);
        tx := tx.(stTimer := true);
      } else if flowStatus == WAIT {
        tx := tx.(waitFrames := tx.waitFrames + 1);
        if cfg.maxWaitFrames >= 0 && tx.waitFrames > cfg.maxWaitFrames {
          FireError(Spec.TooManyWaits);
          StopSending();
          return;
        }
        tx := tx.(fcTimer := true);
      } else if flowStatus == OVERFLOW {
        tx := tx.(fcTimer := false);
        tx := tx.(stTimer := false);
        FireError(Spec.RemoteOverflow);
        StopSending();
      } else {
        FireError(Spec.InvalidFlowStatus);
        StopSending();
      }
    }

    method TakeChunk(chunkSize: nat) returns (chunk: Bytes)
      modifies this`tx
      ensures var size := Min(chunkSize, |old(tx).buffer|);
              chunk == old(tx).buffer[..size] && tx == old(tx).(buffer := old(tx).buffer[size..])
    {
      if |tx.buffer| > chunkSize {
        chunk := tx.buffer[..chunkSize];
        tx := tx.(buffer := tx.buffer[chunkSize..]);
      } else {
        chunk := tx.buffer;
        tx := tx.(buffer := []);
      }
    }

    method HandleTxTransmit(sent: bool)
      modifies this`tx, this`txChan, this`errorChan
      ensures var o := Spec.TxUnless(Spec.HandleTransmit(Env(), old(tx)), sent);
              tx == o.tx && txChan == old(txChan) + o.frames && errorChan == old(errorChan) + o.errors
    {
      if |tx.buffer| == 0 {
        StopSending();
        return;
      }
      var chunk := TakeChunk(FrameDataLength(fd) - 1);
      var data := CreateConsecutiveFrame(chunk, tx.seqNum);
      if data.Err? {
        FireError(Spec.EncodingFailed);
        StopSending();
        return;
      }
      tx := tx.(seqNum := (tx.seqNum + 1) % 16);
      tx := tx.(blockCounter := tx.blockCounter + 1);
      SendData(data.value, sent);
      if !sent || |tx.buffer| == 0 {
        StopSending();
        return;
      }
      if tx.remoteBlockSize > 0 && tx.blockCounter >= tx.remoteBlockSize {
        tx := tx.(state := Spec.WaitFC);
        tx := tx.(fcTimer := true);
      } else {
        tx := tx.(stTimer := true);
      }
    }

    /** Hands a finished payload to the application, or drops it when the queue is full. */
    method DeliverOrDrop(payload: Bytes)
      modifies this`rxDataChan, this`errorChan
      ensures old(Room()) <==> |old(rxDataChan)| < 10
      ensures rxDataChan == if old(Room()) then old(rxDataChan) + [payload] else old(rxDataChan)
      ensures errorChan == if old(Room()) then old(errorChan) else old(errorChan) + [Spec.RxQueueFull]
    {
      if |rxDataChan| < QUEUE {
        rxDataChan := rxDataChan + [payload];
      } else {
        FireError(Spec.RxQueueFull);
      }
    }

    method HandleRxSingleFrame(data: Bytes)
      modifies this`rx, this`rxDataChan, this`errorChan
      ensures var o := Spec.HandleSingleFrame(old(rx), data, old(Room()));
              rx == o.rx && o.frames == []
              && rxDataChan == old(rxDataChan) + o.deliveries && errorChan == old(errorChan) + o.errors
    {
      if rx.state != Spec.Idle {
        FireError(Spec.InterruptedBySF);
      }
      StopReceiving();
      DeliverOrDrop(data);
    }

    method HandleRxFirstFrame(totalSize: nat, data: Bytes, sent: bool)
      modifies this`rx, this`txChan, this`errorChan
      ensures var o := Spec.RxUnless(Spec.HandleFirstFrame(Env(), old(rx), totalSize, data), sent);
              rx == o.rx && txChan == old(txChan) + o.frames
              && o.deliveries == [] && errorChan == old(errorChan) + o.errors
    {
      if rx.state != Spec.Idle {
        FireError(Spec.InterruptedByFF);
      }
      StopReceiving();
      if totalSize <= |data| {
        FireError(Spec.BadFirstFrameLength);
        return;
      }
      if totalSize > cfg.maxPayloadSize {
        FireError(Spec.PayloadTooLarge);
        return;
      }
      rx := rx.(frameLen := totalSize);
      rx := rx.(buffer := data);
      rx := rx.(state := Spec.WaitCF, seqNum := 1);
      var ok := SendFlowControl(CONTINUE_TO_SEND, sent);
      if !ok {
        StopReceiving();
        return;
      }
      rx := rx.(cfTimer := true);
    }

    method HandleRxConsecutiveFrame(seqNum: nat, data: Bytes, sent: bool)
      requires rx.state == Spec.WaitCF ==> |rx.buffer| < rx.frameLen
      modifies this`rx, this`txChan, this`rxDataChan, this`errorChan
      ensures var o := Spec.RxUnless(Spec.HandleConsecutiveFrame(Env(), old(rx), seqNum, data, old(Room())), sent);
              rx == o.rx && txChan == old(txChan) + o.frames
              && rxDataChan == old(rxDataChan) + o.deliveries && errorChan == old(errorChan) + o.errors
    {
      if rx.state != Spec.WaitCF { return; }
      if seqNum != rx.seqNum {
        FireError(Spec.SequenceMismatch(rx.seqNum, seqNum));
        StopReceiving();
        return;
      }
      rx := rx.(cfTimer := true);
      rx := rx.(seqNum := (rx.seqNum + 1) % 16);
      var bytesToReceive := rx.frameLen - |rx.buffer|;
      if |data| > bytesToReceive {
        rx := rx.(buffer := rx.buffer + data[..bytesToReceive]);
      } else {
        assert data == data[..|data|];
        rx := rx.(buffer := rx.buffer + data);
      }
      if |rx.buffer| >= rx.frameLen {
        DeliverOrDrop(rx.buffer);
        StopReceiving();
      } else {
        rx := rx.(blockCounter := rx.blockCounter + 1);
        if cfg.blockSize > 0 && rx.blockCounter >= cfg.blockSize {
          rx := rx.(blockCounter := 0);
          var ok := SendFlowControl(CONTINUE_TO_SEND, sent);
          if !ok {
            StopReceiving();
            return;
          }
          rx := rx.(cfTimer := true);
        }
      }
    }

    method HandlePDU(pdu: PDU, sent: bool)
      requires rx.state == Spec.WaitCF ==> |rx.buffer| < rx.frameLen
      modifies this`tx, this`rx, this`txChan, this`rxDataChan, this`errorChan
      ensures var o := Spec.HandlePDUSending(Env(), old(Value()), pdu, old(Room()), sent);
              Value() == o.s && txChan == old(txChan) + o.frames
              && rxDataChan == old(rxDataChan) + o.deliveries && errorChan == old(errorChan) + o.errors
    {
      match pdu
      case FlowControlFrame(fs, bs, st) => HandleTxFlowControl(fs, bs, st);
      case SingleFrame(data) => HandleRxSingleFrame(data);
      case FirstFrame(total, data) => HandleRxFirstFrame(total, data, sent);
      case ConsecutiveFrame(sn, data) => HandleRxConsecutiveFrame(sn, data, sent);
    }

    method ProcessRx(msg: LinkFrame, sent: bool)
      requires rx.state == Spec.WaitCF ==> |rx.buffer| < rx.frameLen
      modifies this`tx, this`rx, this`txChan, this`rxDataChan, this`errorChan
      ensures var o := Spec.ProcessRxSending(Env(), old(Value()), msg, old(Room()), sent);
              Value() == o.s && txChan == old(txChan) + o.frames
              && rxDataChan == old(rxDataChan) + o.deliveries && errorChan == old(errorChan) + o.errors
    {
      if msg.arbitrationID != rxID { return; }
      var frame := ParseFrame(msg.data);
      match frame
      case Err(e) => FireError(Spec.ParseFailed(e));
      case Ok(pdu) => HandlePDU(pdu, sent);
    }

    /** One iteration of `run` that takes a ready arm and goes on. The object does exactly what
        IsoTpSpec.StepSending says, which is IsoTpSpec.Step unless the session is being closed, and
        stays valid. */
    method Select(ev: Spec.Event, sent: bool)
      requires Valid() && running && Spec.Enabled(Value(), ev)
      requires ev.Incoming? ==> ev.room == Room()
      requires ev.Payload? ==> txDataChan != [] && txDataChan[0] == ev.data
      modifies this`tx, this`rx, this`txChan, this`rxDataChan, this`errorChan, this`txDataChan
      ensures Valid()
      ensures var o := Spec.StepSending(Env(), old(Value()), ev, sent);
              Value() == o.s && txChan == old(txChan) + o.frames
              && rxDataChan == old(rxDataChan) + o.deliveries && errorChan == old(errorChan) + o.errors
      ensures txDataChan == if ev.Payload? then old(txDataChan)[1..] else old(txDataChan)
    {
      UnsentStepKeepsInv(Env(), Value(), ev, sent);
      DeliversAtMostOne(Env(), Value(), ev);
      match ev
      case Incoming(msg, _) =>
        ProcessRx(msg, sent);
      case Payload(data) =>
        txDataChan := txDataChan[1..];
        InitiateTx(data, sent);
      case CFTimerFires =>
        rx := rx.(cfTimer := false);
        FireError(Spec.CFTimedOut);
        StopReceiving();
      case FCTimerFires =>
        tx := tx.(fcTimer := false);
        FireError(Spec.FCTimedOut);
        StopSending();
      case STminTimerFires =>
        tx := tx.(stTimer := false);
        assert tx.state == Spec.Transmit;  // the source's guard against a stale expiry never fires
        HandleTxTransmit(sent);
    }

    /** The arms that end the loop, cancellation and a closed channel: all timers stop, the rest stays. */
    method End()
      requires Valid() && running
      modifies this`running, this`tx, this`rx
      ensures Valid() && !running
      ensures tx == old(tx).(fcTimer := false, stTimer := false) && rx == old(rx).(cfTimer := false)
    {
      running := false;
      rx := rx.(cfTimer := false);
      tx := tx.(fcTimer := false);
      tx := tx.(stTimer := false);
    }

    /** The application takes the oldest delivered payload. */
    method Receive() returns (payload: Option<Bytes>)
      modifies this`rxDataChan
      ensures old(rxDataChan) == [] ==> payload == None && rxDataChan == []
      ensures old(rxDataChan) != [] ==> payload == Some(old(rxDataChan)[0]) && rxDataChan == old(rxDataChan)[1..]
    {
      if rxDataChan == [] {
        payload := None;
      } else {
        payload := Some(rxDataChan[0]);
        rxDataChan := rxDataChan[1..];
      }
    }
  }

  /** newSession: a session exists exactly for an accepted configuration and a valid address, and
      starts idle with the normalised configuration. */
  method New(cfg: RawConfig, address: Option<Address>, fd: bool, brs: bool) returns (s: Option<Session>)
    ensures s.Some? <==> Accepted(cfg) && address.Some? && ValidAddress(address.value)
    ensures s.Some? ==>
              && fresh(s.value) && s.value.Valid() && s.value.running && s.value.Value() == Spec.NewSession
              && s.value.Env()
                 == Spec.Env(NormalizeConfig(cfg).value, fd, brs, address.value.txID, address.value.rxID, None)
              && Spec.ValidEnv(s.value.Env()) && Usable(s.value.cfg)
  {
    NormalizeExact(cfg);
    var normalized := NormalizeConfig(cfg);
    if normalized.None? || address.None? || !ValidAddress(address.value) { return None; }
    var session := new Session(normalized.value, fd, brs, address.value.txID, address.value.rxID);
    return Some(session);
  }
}
