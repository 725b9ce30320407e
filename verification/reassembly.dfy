/** Reassembly against an arbitrary, even ill-behaved, stream of frames: the incremental
    receiver delivers exactly what a reading of the whole history says it should. */
module Reassembly {
  import opened Basics
  import opened Arith
  import opened Pdu
  import opened IsoTpSpec
  import opened SessionInvariant

  /** A frame for this session with any bytes, or an expiry of the consecutive-frame timer. */
  datatype RxEvent = Arrives(data: Bytes, room: bool) | TimesOut

  function Feed(env: Env, rx: Rx, ev: RxEvent): Out
    requires RxInv(env, rx)
  {
    match ev
    case TimesOut =>
      if rx.cfTimer then FromRx(Session(IdleTx, rx), CFTimeout(rx)) else Out(Session(IdleTx, rx), [], [], [])
    case Arrives(p, room) =>
      match ParseFrame(p)
      case Err(_) => Out(Session(IdleTx, rx), [], [], [])
      case Ok(pdu) => HandlePDU(env, Session(IdleTx, rx), pdu, room)
  }

  lemma FeedKeeps(env: Env, rx: Rx, ev: RxEvent)
    requires RxInv(env, rx)
    ensures RxInv(env, Feed(env, rx, ev).s.rx)
  {
    if ev.Arrives? && ParseFrame(ev.data).Ok? { ReceiveKeeps(env, Session(IdleTx, rx), ev.data, ev.room); }
  }

  /** The receiver after the first `t` events. */
  function After(env: Env, evs: seq<RxEvent>, t: nat): (rx: Rx)
    requires t <= |evs|
    ensures RxInv(env, rx)
  {
    if t == 0 then IdleRx
    else
      FeedKeeps(env, After(env, evs, t - 1), evs[t - 1]);
      Feed(env, After(env, evs, t - 1), evs[t - 1]).s.rx
  }

  function DeliveredAt(env: Env, evs: seq<RxEvent>, t: nat): seq<Bytes>
    requires t < |evs|
  {
    Feed(env, After(env, evs, t), evs[t]).deliveries
  }

  // ---------- the history, read as a whole ----------

  function PduAt(evs: seq<RxEvent>, t: nat): Option<PDU>
    requires t < |evs|
  {
    match evs[t]
    case TimesOut => None
    case Arrives(p, _) => (match ParseFrame(p) case Ok(pdu) => Some(pdu) case Err(_) => None)
  }

  predicate IsCF(evs: seq<RxEvent>, t: nat)
    requires t < |evs|
  {
    PduAt(evs, t).Some? && PduAt(evs, t).value.ConsecutiveFrame?
  }

  predicate IsFF(evs: seq<RxEvent>, t: nat)
    requires t < |evs|
  {
    PduAt(evs, t).Some? && PduAt(evs, t).value.FirstFrame?
  }

  /** Consecutive frames in the events after `t0` and before `t`. */
  function CFCount(evs: seq<RxEvent>, t0: nat, t: nat): nat
    requires t0 < t <= |evs|
  {
    if t == t0 + 1 then 0 else CFCount(evs, t0, t - 1) + if IsCF(evs, t - 1) then 1 else 0
  }

  /** The First Frame's data followed by the data of all consecutive frames before `t`. */
  function Collected(evs: seq<RxEvent>, t0: nat, t: nat): Bytes
    requires t0 < t <= |evs| && IsFF(evs, t0)
  {
    if t == t0 + 1 then PduAt(evs, t0).value.data
    else Collected(evs, t0, t - 1) + if IsCF(evs, t - 1) then PduAt(evs, t - 1).value.data else []
  }

  /** Event `u` does not end the reassembly opened at `t0`: no timeout, no SF or FF, and a
      consecutive frame has the next number and leaves bytes missing. */
  predicate Continues(evs: seq<RxEvent>, t0: nat, u: nat)
    requires t0 < u < |evs| && IsFF(evs, t0)
  {
    && evs[u].Arrives?
    && (PduAt(evs, u).Some? ==>
          match PduAt(evs, u).value
          case FlowControlFrame(_, _, _) => true
          case ConsecutiveFrame(sn, _) =>
            sn == (CFCount(evs, t0, u) + 1) % 16
            && |Collected(evs, t0, u + 1)| < PduAt(evs, t0).value.totalSize
          case _ => false)
  }

  /** A First Frame of an acceptable size at `t0`, not ended by any event before `t`. */
  predicate Open(env: Env, evs: seq<RxEvent>, t0: nat, t: nat)
    requires t <= |evs|
  {
    && t0 < t && IsFF(evs, t0)
    && PduAt(evs, t0).value.totalSize <= env.cfg.maxPayloadSize
    && forall u :: t0 < u < t ==> Continues(evs, t0, u)
  }

  /** Event `t` completes the reassembly opened at `t0` with `payload`. */
  predicate Completes(env: Env, evs: seq<RxEvent>, t0: nat, t: nat, payload: Bytes)
    requires t < |evs|
  {
    && Open(env, evs, t0, t) && IsCF(evs, t)
    && PduAt(evs, t).value.sequenceNumber == (CFCount(evs, t0, t) + 1) % 16
    && var total := PduAt(evs, t0).value.totalSize;
       var all := Collected(evs, t0, t + 1);
       total <= |all| && payload == all[..total]
  }

  // ---------- the receiver follows the history ----------

  /** The last First Frame before `t`, or `t` when there is none. */
  function LastFF(evs: seq<RxEvent>, t: nat): nat
    requires t <= |evs|
  {
    if t == 0 then 0
    else if IsFF(evs, t - 1) then t - 1
    else if LastFF(evs, t - 1) == t - 1 then t else LastFF(evs, t - 1)
  }

  lemma {:induction false} OnlyLastFF(env: Env, evs: seq<RxEvent>, t0: nat, t: nat)
    requires t <= |evs| && Open(env, evs, t0, t)
    ensures t0 == LastFF(evs, t)
    decreases t
  {
    if t0 < t - 1 {
      assert Continues(evs, t0, t - 1);
      OnlyLastFF(env, evs, t0, t - 1);
    }
  }

  /** The receiver waits exactly while the latest First Frame is open, holding what the history
      has collected. */
  predicate Follows(env: Env, evs: seq<RxEvent>, t: nat)
    requires t <= |evs|
  {
    var rx, t0 := After(env, evs, t), LastFF(evs, t);
    && (rx.state == WaitCF <==> Open(env, evs, t0, t))
    && (rx.state == WaitCF ==>
          && rx.buffer == Collected(evs, t0, t)
          && rx.frameLen == PduAt(evs, t0).value.totalSize
          && rx.seqNum == (CFCount(evs, t0, t) + 1) % 16)
  }

  lemma IdleStep(env: Env, evs: seq<RxEvent>, t: nat)
    requires t < |evs| && Follows(env, evs, t) && !IsFF(evs, t) && After(env, evs, t).state == Idle
    ensures Follows(env, evs, t + 1)
  {
  }

  /** A consecutive frame ends a waiting receiver or grows its buffer by the whole data. */
  lemma WaitingFrame(env: Env, rx: Rx, sn: nat, data: Bytes, room: bool)
    requires RxInv(env, rx) && rx.state == WaitCF
    ensures var r := HandleConsecutiveFrame(env, rx, sn, data, room).rx;
            if sn != rx.seqNum || |rx.buffer + data| >= rx.frameLen then r.state == Idle
            else r.state == WaitCF && r.buffer == rx.buffer + data && r.frameLen == rx.frameLen
                 && r.seqNum == (rx.seqNum + 1) % 16
  {
  }

  /** The open reassembly goes on exactly when the event does not end it. */
  lemma StillOpen(env: Env, evs: seq<RxEvent>, t: nat)
    requires t < |evs| && Follows(env, evs, t) && !IsFF(evs, t) && After(env, evs, t).state == WaitCF
    ensures var t0 := LastFF(evs, t);
            && LastFF(evs, t + 1) == t0 && Open(env, evs, t0, t)
            && (Open(env, evs, t0, t + 1) <==> Continues(evs, t0, t))
  {
  }

  lemma WaitingData(env: Env, evs: seq<RxEvent>, t: nat)
    requires t < |evs| && Follows(env, evs, t) && IsCF(evs, t) && After(env, evs, t).state == WaitCF
    ensures Follows(env, evs, t + 1)
  {
    var rx, t0, pdu := After(env, evs, t), LastFF(evs, t), PduAt(evs, t).value;
    StillOpen(env, evs, t);
    WaitingFrame(env, rx, pdu.sequenceNumber, pdu.data, evs[t].room);
    NextNumber(CFCount(evs, t0, t) + 1);
    assert Collected(evs, t0, t + 1) == rx.buffer + pdu.data;
  }

  /** Short of a data frame, a timeout or a Single Frame ends a waiting receiver and nothing else
      touches it. */
  lemma OtherEvent(env: Env, rx: Rx, evs: seq<RxEvent>, t: nat)
    requires t < |evs| && RxInv(env, rx) && rx.state == WaitCF && !IsCF(evs, t) && !IsFF(evs, t)
    ensures var ends := evs[t].TimesOut? || (PduAt(evs, t).Some? && PduAt(evs, t).value.SingleFrame?);
            Feed(env, rx, evs[t]).s.rx == if ends then IdleRx else rx
  {
  }

  lemma WaitingOther(env: Env, evs: seq<RxEvent>, t: nat)
    requires t < |evs| && Follows(env, evs, t) && After(env, evs, t).state == WaitCF
    requires !IsCF(evs, t) && !IsFF(evs, t)
    ensures Follows(env, evs, t + 1)
  {
    var rx, t0 := After(env, evs, t), LastFF(evs, t);
    StillOpen(env, evs, t);
    OtherEvent(env, rx, evs, t);
    assert Continues(evs, t0, t) <==> After(env, evs, t + 1) == rx;
    assert Collected(evs, t0, t + 1) == Collected(evs, t0, t) + [] == rx.buffer;
  }

  lemma Truncation(buffer: Bytes, data: Bytes, total: nat)
    requires |buffer| < total
    ensures var grown := buffer + data[..Min(|data|, total - |buffer|)];
            && (|grown| >= total <==> |buffer + data| >= total)
            && grown == (buffer + data)[..Min(total, |buffer + data|)]
  {
  }

  lemma FFStep(env: Env, evs: seq<RxEvent>, t: nat)
    requires t < |evs| && IsFF(evs, t)
    ensures Follows(env, evs, t + 1)
  {
  }

  lemma {:induction false} AlwaysFollows(env: Env, evs: seq<RxEvent>, t: nat)
    requires t <= |evs|
    ensures Follows(env, evs, t)
  {
    if t == 0 {
      assert !Open(env, evs, 0, 0);
    } else {
      AlwaysFollows(env, evs, t - 1);
      if IsFF(evs, t - 1) {
        FFStep(env, evs, t - 1);
      } else if After(env, evs, t - 1).state == Idle {
        IdleStep(env, evs, t - 1);
      } else if IsCF(evs, t - 1) {
        WaitingData(env, evs, t - 1);
      } else {
        WaitingOther(env, evs, t - 1);
      }
    }
  }

  /** Soundness and completeness of reassembly on every stream: an event delivers a payload
      exactly when the queue has room and it is a Single Frame with that payload, or the
      consecutive frame that completes the latest First Frame, the payload being the first
      TotalSize bytes of the First Frame and of the frames numbered 1, 2, ..., 15, 0, 1, ... after it. */
  lemma DeliversExactly(env: Env, evs: seq<RxEvent>, t: nat, payload: Bytes)
    requires t < |evs|
    ensures DeliveredAt(env, evs, t) == [payload]
            <==> && evs[t].Arrives? && evs[t].room
                 && (PduAt(evs, t) == Some(SingleFrame(payload))
                     || exists t0: nat :: Completes(env, evs, t0, t, payload))
    ensures forall t0: nat :: Completes(env, evs, t0, t, payload) ==>
              |payload| == PduAt(evs, t0).value.totalSize <= env.cfg.maxPayloadSize
  {
    AlwaysFollows(env, evs, t);
    forall t0: nat | Open(env, evs, t0, t) ensures t0 == LastFF(evs, t) { OnlyLastFF(env, evs, t0, t); }
    var rx, t0 := After(env, evs, t), LastFF(evs, t);
    if rx.state == WaitCF && IsCF(evs, t) {
      var data := PduAt(evs, t).value.data;
      Truncation(rx.buffer, data, rx.frameLen);
      assert Collected(evs, t0, t + 1) == rx.buffer + data;
      if DeliveredAt(env, evs, t) == [payload] {
        assert Completes(env, evs, t0, t, payload);
      }
    }
  }
}
