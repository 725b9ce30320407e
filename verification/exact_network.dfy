/** The whole connection under the conditions of ExactDelivery: progress, exact delivery at
    every quiescent state, a bound on the steps, and the number of frames used. */
module ExactNetwork {
  import opened Basics
  import opened Framing
  import opened Pdu
  import opened Link
  import opened IsoTpSpec
  import opened SessionInvariant
  import opened Direction
  import opened Network
  import opened ExactDelivery
  import Can

  /** Flow controls in a queue. */
  function Flows(q: seq<Entry>): nat {
    if q == [] then 0 else (if q[0].tag.None? then 1 else 0) + Flows(q[1..])
  }

  lemma {:induction false} FlowsAppend(q: seq<Entry>, e: Entry)
    ensures Flows(q + [e]) == Flows(q) + if e.tag.None? then 1 else 0
  {
    if q == [] {
      assert (q + [e])[1..] == [];
    } else {
      FlowsAppend(q[1..], e);
      assert (q + [e])[1..] == q[1..] + [e];
    }
  }

  /** The frame decodes to an automatic flow control of end `from`. */
  predicate FlowOf(from: Env, to: Env, f: Can.Frame) {
    var pdu := Decoded(to, f);
    && pdu.Some? && pdu.value.FlowControlFrame?
    && pdu.value.flowStatus == CONTINUE_TO_SEND
    && pdu.value.blockSize == from.cfg.blockSize && pdu.value.stMinUS == from.cfg.stMin * 1000
  }

  /** Every untagged frame in a queue is an automatic flow control of end `from`. */
  predicate OnlyFlows(from: Env, to: Env, q: seq<Entry>) {
    q == [] || ((q[0].tag.None? ==> FlowOf(from, to, q[0].frame)) && OnlyFlows(from, to, q[1..]))
  }

  lemma {:induction false} OnlyFlowsAppend(from: Env, to: Env, q: seq<Entry>, e: Entry)
    requires OnlyFlows(from, to, q) && (e.tag.None? ==> FlowOf(from, to, e.frame))
    ensures OnlyFlows(from, to, q + [e])
  {
    if q == [] {
      assert (q + [e])[1..] == [];
    } else {
      OnlyFlowsAppend(from, to, q[1..], e);
      assert (q + [e])[1..] == q[1..] + [e];
    }
  }

  predicate AllFit(er: Env, sent: seq<Bytes>) {
    forall p :: p in sent ==> |p| <= er.cfg.maxPayloadSize
  }

  predicate ExactNet(ea: Env, eb: Env, net: Net) {
    && NetInv(ea, eb, net)
    && Exact(eb, AB(net), Flows(net.ba)) && Exact(ea, BA(net), Flows(net.ab))
    && OnlyFlows(ea, eb, net.ab) && OnlyFlows(eb, ea, net.ba)
    && AllFit(eb, net.hab.sent) && AllFit(ea, net.hba.sent)
    && net.errors == []
  }

  /** Both ends send flow control by themselves. */
  predicate Automatic(ea: Env, eb: Env) {
    Connected(ea, eb) && !ea.cfg.manualFlowControl && !eb.cfg.manualFlowControl
  }

  /** Steps of a run without expiry of N_Bs and N_Cr, without a full receive queue, and with
      payloads the receiver accepts. */
  predicate Benign(ea: Env, eb: Env, net: Net, act: Action) {
    CanAct(ea, eb, net, act) &&
    match act
    case Start(p) => |p| <= eb.cfg.maxPayloadSize && !EmptyClassicLost(ea, p)
    case Take(room) => room
    case STminTimer => true
    case _ => false
  }

  predicate BenignStep(ea: Env, eb: Env, net: Net, side: Side, act: Action) {
    match side
    case A => Benign(ea, eb, net, act)
    case B => Benign(eb, ea, Swap(net), act)
  }

  // ---------- each benign step ----------

  lemma StartStates(env: Env, tx: Tx, p: Bytes)
    requires TxInv(env, tx) && tx.state == Idle && (FitsSingleFrame(env, |p|) || 0 < FirstChunkSize(env, |p|) < |p|)
    requires |p| < TWO32
    ensures InitiateTx(env, tx, p).tx.state == if FitsSingleFrame(env, |p|) then Idle else WaitFC
  {
  }

  /** The entry and the sender a new payload leaves. */
  lemma StartShape(ea: Env, eb: Env, net: Net, p: Bytes) returns (e: Entry, tx: Tx)
    requires Automatic(ea, eb) && NetInv(ea, eb, net) && Benign(ea, eb, net, Start(p))
    ensures e.tag == StartTag(ea, |net.hab.sent|, p)
    ensures ActA(ea, eb, net, Start(p))
            == net.(a := net.a.(tx := tx), ab := net.ab + [e], hab := net.hab.(sent := net.hab.sent + [p]))
    ensures tx.state == (if FitsSingleFrame(ea, |p|) then Idle else WaitFC)
    ensures FitsSingleFrame(ea, |p|) || 0 < FirstChunkSize(ea, |p|) < |p|
  {
    var frame;
    frame, tx := StartActs(ea, eb, net, p);
    if !FitsSingleFrame(ea, |p|) { FirstFrameArrives(ea, eb, p); }
    e := Entry(frame, StartTag(ea, |net.hab.sent|, p));
    StartStates(ea, net.a.tx, p);
  }

  lemma StartStays(ea: Env, eb: Env, net: Net, p: Bytes)
    requires Automatic(ea, eb) && ExactNet(ea, eb, net) && Benign(ea, eb, net, Start(p))
    ensures ExactNet(ea, eb, ActA(ea, eb, net, Start(p)))
  {
    StartKeeps(ea, eb, net, p);
    var e, tx := StartShape(ea, eb, net, p);
    StartExact(ea, eb, AB(net), Flows(net.ba), p, e.frame, tx);
    FlowsAppend(net.ab, e);
    OnlyFlowsAppend(ea, eb, net.ab, e);
    var net' := ActA(ea, eb, net, Start(p));
    assert BA(net') == BA(net);
  }

  /** The entry and the sender an STmin expiry leaves. */
  lemma STminShape(ea: Env, eb: Env, net: Net) returns (e: Entry, tx: Tx)
    requires Automatic(ea, eb) && NetInv(ea, eb, net) && Benign(ea, eb, net, STminTimer)
    ensures net.a.tx.state == Transmit && 0 <= LastSent(AB(net)).k < |net.hab.sent|
    ensures tx == STminTimeout(ea, net.a.tx).tx && |tx.buffer| < |net.a.tx.buffer|
    ensures e.tag == Some(NextTag(ea, net.hab.sent, LastSent(AB(net))))
    ensures ActA(ea, eb, net, STminTimer) == net.(a := net.a.(tx := tx), ab := net.ab + [e])
    ensures var next := NextTag(ea, net.hab.sent, LastSent(AB(net)));
            tx.state == Idle <==> next.end == |net.hab.sent[next.k]|
  {
    e, tx := STminActs(ea, eb, net);
    TransmitShape(ea, net.a.tx);
  }

  lemma STminStays(ea: Env, eb: Env, net: Net)
    requires Automatic(ea, eb) && ExactNet(ea, eb, net) && Benign(ea, eb, net, STminTimer)
    ensures ExactNet(ea, eb, ActA(ea, eb, net, STminTimer))
    ensures 0 <= LastSent(AB(net)).k < |net.hab.sent| && net.a.tx.state == Transmit
    ensures var net', next := ActA(ea, eb, net, STminTimer), NextTag(ea, net.hab.sent, LastSent(AB(net)));
            && net'.hab.sent == net.hab.sent && LastSent(AB(net')) == next
            && (net'.a.tx.state == WaitFC <==> Trigger(eb.cfg.blockSize, net.hab.sent, next))
  {
    STminKeeps(ea, eb, net);
    var e, tx := STminShape(ea, eb, net);
    TransmitStates(ea, net.a.tx);
    TransmitExact(ea, eb, AB(net), Flows(net.ba), e.frame, tx);
    FlowsAppend(net.ab, e);
    OnlyFlowsAppend(ea, eb, net.ab, e);
    var net' := ActA(ea, eb, net, STminTimer);
    assert AB(net') == Push(AB(net), e).(tx := tx) && BA(net') == BA(net);
    LastAfterPush(AB(net), e, AB(net'));
  }

  lemma LastAfterPush(d: Dir, e: Entry, d': Dir)
    requires e.tag.Some? && d'.queue == d.queue + [e] && d'.h.consumed == d.h.consumed
    ensures LastSent(d') == e.tag.value
  {
    TagsAppend(d.queue, e);
  }

  lemma TransmitStates(env: Env, tx: Tx)
    requires TxInv(env, tx) && tx.stTimer
    ensures var o := STminTimeout(env, tx).tx;
            o.state != Idle ==>
              && o.state == (if tx.remoteBlockSize > 0 && tx.blockCounter + 1 >= tx.remoteBlockSize
                             then WaitFC else Transmit)
              && o.remoteBlockSize == tx.remoteBlockSize && o.blockCounter == tx.blockCounter + 1
  {
  }

  /** Taking a data frame with room and within the limit does exactly what its tag says. */
  lemma DataTaken(es: Env, er: Env, d: Dir, fcs: nat)
    requires DirInv(es, er, d) && Exact(er, d, fcs) && RxInv(er, d.rx) && AllFit(er, d.h.sent)
    requires d.queue != [] && d.queue[0].tag.Some?
    ensures Decoded(er, d.queue[0].frame).Some?
    ensures var t, pdu := d.queue[0].tag.value, Decoded(er, d.queue[0].frame).value;
            && 0 <= t.k < |d.h.sent|
            && (pdu.SingleFrame? || pdu.FirstFrame? || pdu.ConsecutiveFrame?)
            && forall tx :: var o := HandlePDU(er, Session(tx, d.rx), pdu, true);
                 TakesExactly(er, d, t, RxOut(o.s.rx, o.frames, o.deliveries, o.errors)) && o.s.tx == tx
  {
    assert EntryOk(es, er, d.h.sent, d.queue[0]);
    PopPath(d);
    assert Tight(d.h.sent, Path(d)[0], Path(d)[1]);
    var t, pdu := d.queue[0].tag.value, Decoded(er, d.queue[0].frame).value;
    match pdu
    case SingleFrame(data) => SingleTakes(es, er, d, fcs, t, data);
    case FirstFrame(total, data) => FirstTakes(es, er, d, fcs, t, total, data);
    case ConsecutiveFrame(sn, data) => ConsecutiveTakes(es, er, d, fcs, t, sn, data);
  }

  /** The queue of the other direction after a take: one more flow control, or unchanged. */
  lemma FlowPushed(ea: Env, eb: Env, d: Dir, fcs: nat, frames: seq<LinkFrame>)
    requires Automatic(ea, eb) && Exact(eb, d, fcs) && OnlyFlows(ea, eb, d.queue)
    requires frames == [] || frames == FlowControlMsgs(ea)
    ensures var q := Emit(ea, d.queue, frames, None);
            && Exact(eb, d.(queue := q), fcs)
            && OnlyFlows(ea, eb, q)
            && Flows(q) == Flows(d.queue) + (if frames == [] then 0 else 1)
            && Tags(q) == Tags(d.queue)
  {
    if frames != [] {
      FlowControlArrives(ea, eb);
      var e := Entry(Carry(ToCANFrame(frames[0], ea.brs).value), None);
      TagsAppend(d.queue, e);
      assert Tags(d.queue + [e]) == Tags(d.queue);
      FlowsAppend(d.queue, e);
      OnlyFlowsAppend(ea, eb, d.queue, e);
      assert Path(d.(queue := d.queue + [e])) == Path(d);
    }
  }

  /** The result of taking a data frame. */
  lemma TakeDataShape(ea: Env, eb: Env, net: Net) returns (o: RxOut)
    requires Automatic(ea, eb) && ExactNet(ea, eb, net) && net.ba != [] && net.ba[0].tag.Some?
    ensures var t := net.ba[0].tag.value;
            0 <= t.k < |net.hba.sent| && TakesExactly(ea, BA(net), t, o)
    ensures var h := Pop(BA(net)).h;
            TakeFrame(ea, net, true)
            == net.(a := net.a.(rx := o.rx), ba := net.ba[1..], ab := Emit(ea, net.ab, o.frames, None),
                    hba := h.(delivered := h.delivered + o.deliveries))
  {
    var d := BA(net);
    DataTaken(eb, ea, d, Flows(net.ab));
    var s := HandlePDU(ea, net.a, Decoded(ea, net.ba[0].frame).value, true);
    assert net.a == Session(net.a.tx, d.rx);
    assert Step(ea, net.a, Incoming(FromCANFrame(net.ba[0].frame).value, true)) == s;
    o := RxOut(s.s.rx, s.frames, s.deliveries, s.errors);
    assert net.errors + s.errors == net.errors;
  }

  /** Taking a data frame adds at most its flow control to the taker's own direction ... */
  lemma TakeDataOwn(ea: Env, eb: Env, net: Net)
    requires Automatic(ea, eb) && ExactNet(ea, eb, net) && net.ba != [] && net.ba[0].tag.Some?
    ensures var net' := TakeFrame(ea, net, true);
            && Exact(eb, AB(net'), Flows(net'.ba)) && OnlyFlows(ea, eb, net'.ab)
            && net'.errors == net.errors && net'.hab == net.hab && net'.hba.sent == net.hba.sent
  {
    var o := TakeDataShape(ea, eb, net);
    FlowPushed(ea, eb, AB(net), Flows(net.ba), o.frames);
    assert AB(TakeFrame(ea, net, true)) == AB(net).(queue := Emit(ea, net.ab, o.frames, None));
  }

  /** ... exactly when the frame it takes from the other direction is a trigger. */
  lemma TakeDataOther(ea: Env, eb: Env, net: Net)
    requires Automatic(ea, eb) && ExactNet(ea, eb, net) && net.ba != [] && net.ba[0].tag.Some?
    ensures var net' := TakeFrame(ea, net, true);
            Exact(ea, BA(net'), Flows(net'.ab)) && OnlyFlows(eb, ea, net'.ba)
  {
    var o := TakeDataShape(ea, eb, net);
    var d := BA(net);
    PopExact(eb, ea, d, Flows(net.ab), o);
    FlowPushed(ea, eb, AB(net), Flows(net.ba), o.frames);
    assert o.frames != [] <==> Trigger(ea.cfg.blockSize, d.h.sent, net.ba[0].tag.value);
    assert BA(TakeFrame(ea, net, true))
        == Pop(d).(rx := o.rx, h := Pop(d).h.(delivered := Pop(d).h.delivered + o.deliveries));
  }

  lemma TakeDataStays(ea: Env, eb: Env, net: Net)
    requires Automatic(ea, eb) && ExactNet(ea, eb, net) && net.ba != [] && net.ba[0].tag.Some?
    ensures ExactNet(ea, eb, TakeFrame(ea, net, true))
  {
    TakeDataKeeps(ea, eb, net, true);
    TakeDataOwn(ea, eb, net);
    TakeDataOther(ea, eb, net);
  }

  /** The result of taking a flow control: the waiting sender transmits. */
  lemma TakeFlowShape(ea: Env, eb: Env, net: Net) returns (o: TxOut)
    requires Automatic(ea, eb) && ExactNet(ea, eb, net) && net.ba != [] && net.ba[0].tag.None?
    ensures o == HandleFlowControl(ea, net.a.tx, CONTINUE_TO_SEND, eb.cfg.blockSize, eb.cfg.stMin * 1000)
    ensures net.a.tx.state == WaitFC && o.tx.state == Transmit && o.tx.buffer == net.a.tx.buffer
    ensures TakeFrame(ea, net, true) == net.(a := net.a.(tx := o.tx), ba := net.ba[1..])
    ensures Flows(net.ba) > 0 && Exact(eb, AB(net).(tx := o.tx), Flows(net.ba) - 1)
  {
    assert FlowOf(eb, ea, net.ba[0].frame);
    AcceptExact(ea, eb, AB(net), Flows(net.ba), eb.cfg.stMin * 1000);
    o := HandleFlowControl(ea, net.a.tx, CONTINUE_TO_SEND, eb.cfg.blockSize, eb.cfg.stMin * 1000);
    assert Step(ea, net.a, Incoming(FromCANFrame(net.ba[0].frame).value, true)) == FromTx(net.a, o);
    assert net.hba.delivered + [] == net.hba.delivered;
    assert net.errors + [] == net.errors;
  }

  lemma PopFlowExact(er: Env, d: Dir, fcs: nat)
    requires Exact(er, d, fcs) && d.queue != [] && d.queue[0].tag.None?
    ensures Exact(er, Pop(d), fcs)
  {
    PopPath(d);
    assert Tags(Pop(d).queue) == Tags(d.queue);
  }

  lemma TakeFlowStays(ea: Env, eb: Env, net: Net)
    requires Automatic(ea, eb) && ExactNet(ea, eb, net) && net.ba != [] && net.ba[0].tag.None?
    ensures ExactNet(ea, eb, TakeFrame(ea, net, true))
  {
    TakeUntaggedKeeps(ea, eb, net, true);
    var o := TakeFlowShape(ea, eb, net);
    var net' := TakeFrame(ea, net, true);
    assert AB(net') == AB(net).(tx := o.tx);
    PopFlowExact(ea, BA(net), Flows(net.ab));
    assert BA(net') == Pop(BA(net));
  }

  lemma ActStays(ea: Env, eb: Env, net: Net, act: Action)
    requires Automatic(ea, eb) && ExactNet(ea, eb, net) && Benign(ea, eb, net, act)
    ensures ExactNet(ea, eb, ActA(ea, eb, net, act))
  {
    match act
    case Start(p) => StartStays(ea, eb, net, p);
    case Take(_) =>
      if net.ba[0].tag.Some? { TakeDataStays(ea, eb, net); } else { TakeFlowStays(ea, eb, net); }
    case STminTimer => STminStays(ea, eb, net);
  }

  lemma StepStays(ea: Env, eb: Env, net: Net, side: Side, act: Action)
    requires Automatic(ea, eb) && ExactNet(ea, eb, net) && BenignStep(ea, eb, net, side, act)
    ensures CanStep(ea, eb, net, side, act) && ExactNet(ea, eb, StepNet(ea, eb, net, side, act))
  {
    if side == A {
      ActStays(ea, eb, net, act);
    } else {
      ActStays(eb, ea, Swap(net), act);
    }
  }

  // ---------- termination ----------

  /** Work left in one direction: bytes to send, data frames and flow controls to take. */
  function Work(tx: Tx, queue: seq<Entry>): nat {
    3 * |tx.buffer| + 2 * |Tags(queue)| + Flows(queue)
  }

  function TotalWork(net: Net): nat { Work(net.a.tx, net.ab) + Work(net.b.tx, net.ba) }

  /** Every step other than starting a payload uses up work. */
  lemma ActWorks(ea: Env, eb: Env, net: Net, act: Action)
    requires Automatic(ea, eb) && ExactNet(ea, eb, net) && Benign(ea, eb, net, act) && !act.Start?
    ensures TotalWork(ActA(ea, eb, net, act)) < TotalWork(net)
  {
    match act
    case STminTimer =>
      var e, tx := STminShape(ea, eb, net);
      FlowsAppend(net.ab, e);
      TagsAppend(net.ab, e);
    case Take(_) =>
      if net.ba[0].tag.Some? {
        var o := TakeDataShape(ea, eb, net);
        FlowPushed(ea, eb, AB(net), Flows(net.ba), o.frames);
      } else {
        var o := TakeFlowShape(ea, eb, net);
      }
  }

  lemma StepWorks(ea: Env, eb: Env, net: Net, side: Side, act: Action)
    requires Automatic(ea, eb) && ExactNet(ea, eb, net) && BenignStep(ea, eb, net, side, act) && !act.Start?
    ensures CanStep(ea, eb, net, side, act) && TotalWork(StepNet(ea, eb, net, side, act)) < TotalWork(net)
  {
    if side == A {
      ActWorks(ea, eb, net, act);
    } else {
      ActWorks(eb, ea, Swap(net), act);
    }
  }

  /** Nothing is on the wire and no sender is between two frames. */
  predicate Quiescent(net: Net) {
    net.ab == [] && net.ba == [] && net.a.tx.state != Transmit && net.b.tx.state != Transmit
  }

  /** A connection that is not quiescent can always take a step that is not a new payload. */
  lemma Progress(ea: Env, eb: Env, net: Net)
    requires Automatic(ea, eb) && ExactNet(ea, eb, net) && !Quiescent(net)
    ensures exists side: Side, act: Action :: !act.Start? && BenignStep(ea, eb, net, side, act)
  {
    if net.ba != [] {
      assert BenignStep(ea, eb, net, A, Take(true));
    } else if net.ab != [] {
      assert BenignStep(ea, eb, net, B, Take(true));
    } else if net.a.tx.state == Transmit {
      assert BenignStep(ea, eb, net, A, STminTimer);
    } else {
      assert BenignStep(ea, eb, net, B, STminTimer);
    }
  }

  /** At rest both ends are Idle and have delivered exactly what the other end started. */
  lemma RestIsExact(ea: Env, eb: Env, net: Net)
    requires Automatic(ea, eb) && ExactNet(ea, eb, net) && Quiescent(net)
    ensures net.a.tx.state == Idle && net.a.rx.state == Idle && net.b.tx.state == Idle && net.b.rx.state == Idle
    ensures net.hab.delivered == net.hab.sent && net.hba.delivered == net.hba.sent
  {
  }

  ghost predicate NetRun(ea: Env, eb: Env, nets: seq<Net>, sides: seq<Side>, acts: seq<Action>) {
    && |nets| == |acts| + 1 == |sides| + 1 && nets[0] == InitialNet
    && forall i :: 0 <= i < |acts| ==>
         CanStep(ea, eb, nets[i], sides[i], acts[i])
         && nets[i + 1] == StepNet(ea, eb, nets[i], sides[i], acts[i])
  }

  ghost predicate BenignRun(ea: Env, eb: Env, nets: seq<Net>, sides: seq<Side>, acts: seq<Action>) {
    NetRun(ea, eb, nets, sides, acts)
    && forall i :: 0 <= i < |acts| ==> BenignStep(ea, eb, nets[i], sides[i], acts[i])
  }

  /** A run without its last step, and that step. */
  lemma BenignFront(ea: Env, eb: Env, nets: seq<Net>, sides: seq<Side>, acts: seq<Action>)
    requires BenignRun(ea, eb, nets, sides, acts) && acts != []
    ensures var n := |acts| - 1;
            && BenignRun(ea, eb, nets[..n + 1], sides[..n], acts[..n])
            && BenignStep(ea, eb, nets[n], sides[n], acts[n]) && CanStep(ea, eb, nets[n], sides[n], acts[n])
            && nets[n + 1] == StepNet(ea, eb, nets[n], sides[n], acts[n])
  {
  }

  lemma {:induction false} BenignRunStays(ea: Env, eb: Env, nets: seq<Net>, sides: seq<Side>, acts: seq<Action>)
    requires Automatic(ea, eb) && BenignRun(ea, eb, nets, sides, acts)
    ensures ExactNet(ea, eb, nets[|acts|])
    decreases |acts|
  {
    if acts == [] {
      assert Path(AB(InitialNet)) == [NOTHING] && Path(BA(InitialNet)) == [NOTHING];
    } else {
      var n := |acts| - 1;
      BenignFront(ea, eb, nets, sides, acts);
      BenignRunStays(ea, eb, nets[..n + 1], sides[..n], acts[..n]);
      StepStays(ea, eb, nets[n], sides[n], acts[n]);
    }
  }

  /** Main delivery theorem. In every run without expiries, with room and with accepted sizes,
      whatever the interleaving and however many payloads are started in both directions:
      no error is reported; the deliveries are always a prefix of what was started; if the state is
      not quiescent another step is possible; and if it is, both ends are Idle and every started
      payload has been delivered exactly once and in order. */
  lemma ExactlyDelivered(ea: Env, eb: Env, nets: seq<Net>, sides: seq<Side>, acts: seq<Action>)
    requires Automatic(ea, eb) && BenignRun(ea, eb, nets, sides, acts)
    ensures var net := nets[|acts|];
            && net.errors == []
            && net.hab.delivered <= net.hab.sent && net.hba.delivered <= net.hba.sent
            && (!Quiescent(net) ==> exists side: Side, act: Action :: !act.Start? && BenignStep(ea, eb, net, side, act))
            && (Quiescent(net) ==>
                  && net.a.tx.state == Idle && net.a.rx.state == Idle
                  && net.b.tx.state == Idle && net.b.rx.state == Idle
                  && net.hab.delivered == net.hab.sent && net.hba.delivered == net.hba.sent)
  {
    BenignRunStays(ea, eb, nets, sides, acts);
    var net := nets[|acts|];
    if Quiescent(net) { RestIsExact(ea, eb, net); } else { Progress(ea, eb, net); }
  }

  /** A stretch of steps without new payloads is no longer than the work at its start, so
      every run that stops starting payloads comes to rest. */
  lemma {:induction false} StretchIsBounded(ea: Env, eb: Env, nets: seq<Net>, sides: seq<Side>, acts: seq<Action>)
    requires Automatic(ea, eb) && |nets| == |acts| + 1 == |sides| + 1 && ExactNet(ea, eb, nets[0])
    requires forall i :: 0 <= i < |acts| ==>
               && !acts[i].Start? && BenignStep(ea, eb, nets[i], sides[i], acts[i])
               && CanStep(ea, eb, nets[i], sides[i], acts[i])
               && nets[i + 1] == StepNet(ea, eb, nets[i], sides[i], acts[i])
    ensures ExactNet(ea, eb, nets[|acts|]) && |acts| + TotalWork(nets[|acts|]) <= TotalWork(nets[0])
    decreases |acts|
  {
    if acts != [] {
      var n := |acts| - 1;
      StretchIsBounded(ea, eb, nets[..n + 1], sides[..n], acts[..n]);
      StepStays(ea, eb, nets[n], sides[n], acts[n]);
      StepWorks(ea, eb, nets[n], sides[n], acts[n]);
    }
  }
}
