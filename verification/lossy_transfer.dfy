/** One transfer over a link that may drop any frame and may hand any frame to the
    receiver several times in a row. The reverse channel is arbitrary: the sender may see
    any flow control at any time. */
module LossyTransfer {
  import opened Basics
  import opened Arith
  import opened Framing
  import opened Pdu
  import opened Link
  import opened IsoTpSpec
  import opened SessionInvariant
  import opened Direction
  import opened Network
  import opened FrameCounts
  import Can

  /** `last` is the tag of the last frame sent and `seen` the number of the last frame the
      receiver processed, -1 before the first; both are history. */
  datatype Lossy = Lossy(tx: Tx, queue: seq<Entry>, rx: Rx, last: Option<Tag>, delivered: seq<Bytes>, seen: int)

  datatype LossyAction =
    | Begin
    | Expire
    | FlowControl(flowStatus: byte, blockSize: nat, stMinUS: nat)
    | FCExpires
    | CFExpires
    | Drop
    | Hear(room: bool)
    | HearAndKeep(room: bool)

  const Fresh := Lossy(IdleTx, [], IdleRx, None, [], -1)

  predicate CanDo(l: Lossy, act: LossyAction) {
    match act
    case Begin => l.last == None
    case Expire => l.tx.stTimer
    case FlowControl(fs, _, _) => fs <= OVERFLOW
    case FCExpires => l.tx.fcTimer
    case CFExpires => l.rx.cfTimer
    case _ => l.queue != []
  }

  /** The receiver processes a frame; its own transmit half plays no part. */
  function Heard(er: Env, rx: Rx, frame: Can.Frame, room: bool): Out
    requires rx.state == WaitCF ==> |rx.buffer| < rx.frameLen
  {
    match FromCANFrame(frame)
    case None => Out(Session(IdleTx, rx), [], [], [])
    case Some(msg) => Step(er, Session(IdleTx, rx), Incoming(msg, room))
  }

  function Listen(er: Env, l: Lossy, room: bool): Lossy
    requires l.queue != [] && (l.rx.state == WaitCF ==> |l.rx.buffer| < l.rx.frameLen)
  {
    var o := Heard(er, l.rx, l.queue[0].frame, room);
    l.(rx := o.s.rx, delivered := l.delivered + o.deliveries,
       seen := if l.queue[0].tag.Some? then l.queue[0].tag.value.i else l.seen)
  }

  function Do(es: Env, er: Env, p: Bytes, l: Lossy, act: LossyAction): Lossy
    requires CanDo(l, act) && (l.rx.state == WaitCF ==> |l.rx.buffer| < l.rx.frameLen)
  {
    match act
    case Begin =>
      var o := InitiateTx(es, l.tx, p);
      l.(tx := o.tx, queue := Emit(es, l.queue, o.frames, StartTag(es, 0, p)), last := StartTag(es, 0, p))
    case Expire =>
      var o := STminTimeout(es, l.tx);
      var next := if l.last.Some? && l.last.value.k == 0 then Some(NextTag(es, [p], l.last.value)) else None;
      l.(tx := o.tx, queue := Emit(es, l.queue, o.frames, next), last := next)
    case FlowControl(fs, bs, st) => l.(tx := HandleFlowControl(es, l.tx, fs, bs, st).tx)
    case FCExpires => l.(tx := FCTimeout(l.tx).tx)
    case CFExpires => l.(rx := CFTimeout(l.rx).rx)
    case Drop => l.(queue := l.queue[1..])
    case Hear(room) => Listen(er, l, room).(queue := l.queue[1..])
    case HearAndKeep(room) => Listen(er, l, room)
  }

  // ---------- invariant ----------

  function First(es: Env, p: Bytes): int { FirstChunkSize(es, |p|) }

  /** After `c` accepted consecutive frames, the last of them number `acc`. Either nothing is
      missing and the buffer is a prefix of the payload, or at least 16 frames are missing. */
  predicate RxLossy(es: Env, p: Bytes, rx: Rx, seen: int, c: nat, acc: nat) {
    var f, k, n := First(es, p), ChunkSize(es), |p|;
    && rx.frameLen == n && |rx.buffer| < n && rx.seqNum == (c + 1) % 16
    && acc <= seen
    && (if acc == c then f + c * k < n && rx.buffer == p[..f + c * k]
        else c + 16 <= acc && acc % 16 == c % 16 && |rx.buffer| <= f + c * k)
  }

  /** Frame `i` starts where `i - 1` full frames end. */
  predicate Ranged(es: Env, p: Bytes, t: Tag) {
    t.i > 0 ==> t.start == First(es, p) + (t.i - 1) * ChunkSize(es)
  }

  /** A tagged frame of the transfer; a consecutive frame carries no more than its capacity. */
  predicate FrameOk(es: Env, er: Env, p: Bytes, e: Entry) {
    && e.tag.Some? && EntryOk(es, er, [p], e) && Closed(es, [p], e.tag.value)
    && Ranged(es, p, e.tag.value)
    && var pdu := Decoded(er, e.frame).value;
       pdu.ConsecutiveFrame? ==> |pdu.data| <= ChunkSize(es)
  }

  /** The queue holds frames of the transfer, numbered upwards from `seen`, ending at `last`. */
  predicate QueueOk(es: Env, er: Env, p: Bytes, q: seq<Entry>, seen: int, lastI: int) {
    && (forall j :: 0 <= j < |q| ==> FrameOk(es, er, p, q[j]) && seen <= q[j].tag.value.i <= lastI)
    && (forall j :: 0 <= j < |q| - 1 ==> q[j].tag.value.i < q[j + 1].tag.value.i)
  }

  predicate SenderOk(es: Env, p: Bytes, l: Lossy) {
    && TxInv(es, l.tx)
    && match l.last
       case None => l.tx.state == Idle && l.queue == [] && l.seen == -1
       case Some(t) => t.k == 0 && l.seen <= t.i && Closed(es, [p], t) && TxRel(es, l.tx, [p], t)
  }

  ghost predicate ReceiverOk(es: Env, er: Env, p: Bytes, l: Lossy) {
    && RxInv(er, l.rx)
    && (l.rx.state == WaitCF ==> l.delivered == [] && exists c, acc :: RxLossy(es, p, l.rx, l.seen, c, acc))
    && (l.delivered == [] || (l.delivered == [p] && l.seen > 0))
  }

  ghost predicate LossyInv(es: Env, er: Env, p: Bytes, l: Lossy) {
    && SenderOk(es, p, l)
    && QueueOk(es, er, p, l.queue, l.seen, if l.last.Some? then l.last.value.i else -1)
    && ReceiverOk(es, er, p, l)
  }

  // ---------- the receiver ----------

  lemma FirstHeard(es: Env, er: Env, p: Bytes, l: Lossy, total: nat, data: Bytes)
    requires ReceiverOk(es, er, p, l) && l.seen <= 0 && 0 < First(es, p) < |p|
    requires total == |p| && data == p[..First(es, p)]
    ensures var o := HandleFirstFrame(er, l.rx, total, data);
            o.deliveries == [] && ReceiverOk(es, er, p, l.(rx := o.rx, seen := 0))
  {
    var o := HandleFirstFrame(er, l.rx, total, data);
    FirstFrameKeeps(er, l.rx, total, data);
    if o.rx.state == WaitCF {
      assert First(es, p) + 0 * ChunkSize(es) == First(es, p);
      assert RxLossy(es, p, o.rx, 0, 0, 0);
    }
  }

  /** The expected frame arrives: the prefix grows, or the payload is complete. */
  lemma AcceptExpected(es: Env, er: Env, p: Bytes, rx: Rx, seen: int, c: nat, t: Tag, data: Bytes, room: bool)
    requires RxInv(er, rx) && rx.state == WaitCF && RxLossy(es, p, rx, seen, c, c)
    requires t.i == c + 1 && t.k == 0 && TagOk(es, [p], t) && Closed(es, [p], t) && Ranged(es, p, t)
    requires PduMatches(es, p, t, ConsecutiveFrame(t.i % 16, data))
    ensures var o := HandleConsecutiveFrame(er, rx, t.i % 16, data, room);
            if t.end == |p| then
              o.rx.state == Idle && (o.deliveries == [] || o.deliveries == [p])
            else
              o.rx.state == WaitCF && o.deliveries == [] && RxLossy(es, p, o.rx, t.i, c + 1, c + 1)
  {
    assert [p][0] == p;
    var take := Min(|data|, rx.frameLen - |rx.buffer|);
    NextNumber(c + 1);
    assert t.start == |rx.buffer|;
    assert take == t.end - t.start;
    assert p[..t.start] + p[t.start..t.end] == p[..t.end];
    assert rx.buffer + data[..take] == p[..t.end];
    if t.end == |p| { assert p[..t.end] == p; }
  }

  /** A frame accepted under a wrong number comes at least 16 frames too late, and no fill in
      the last frame makes up for that: the payload stays incomplete. */
  lemma AcceptLate(es: Env, er: Env, p: Bytes, rx: Rx, seen: int, c: nat, acc: nat, t: Tag, data: Bytes, room: bool)
    requires RxInv(er, rx) && rx.state == WaitCF && RxLossy(es, p, rx, seen, c, acc)
    requires t.i >= c + 17 && t.k == 0 && TagOk(es, [p], t) && Closed(es, [p], t) && t.i % 16 == (c + 1) % 16
    requires |data| <= ChunkSize(es)
    ensures var o := HandleConsecutiveFrame(er, rx, t.i % 16, data, room);
            o.rx.state == WaitCF && o.deliveries == [] && RxLossy(es, p, o.rx, t.i, c + 1, t.i)
  {
    var f, k := First(es, p), ChunkSize(es);
    assert [p][0] == p;
    NextNumber(c + 1);
    LateBytes(c, t.i, k);
    assert f + (c + 1) * k < |p|;
    assert |rx.buffer| <= f + c * k;
  }

  lemma LateBytes(c: nat, i: nat, k: nat)
    requires i >= c + 17
    ensures (c + 1) * k == c * k + k && (c + 1) * k <= (i - 1) * k
  {
    MulMono(c + 1, i - 1, k);
  }

  lemma SequenceGap(seen: int, c: nat, acc: nat, i: nat)
    requires acc <= seen <= i && i % 16 == (c + 1) % 16
    requires acc == c || (c + 16 <= acc && acc % 16 == c % 16)
    ensures (acc == c && i == c + 1) || i >= c + 17
  {
  }

  lemma AcceptLossy(es: Env, er: Env, p: Bytes, rx: Rx, seen: int, c: nat, acc: nat, t: Tag, data: Bytes, room: bool)
    requires RxInv(er, rx) && rx.state == WaitCF && RxLossy(es, p, rx, seen, c, acc) && seen <= t.i
    requires t.k == 0 && TagOk(es, [p], t) && Closed(es, [p], t) && Ranged(es, p, t)
    requires PduMatches(es, p, t, ConsecutiveFrame(t.i % 16, data)) && |data| <= ChunkSize(es)
    requires t.i % 16 == (c + 1) % 16
    ensures var o := HandleConsecutiveFrame(er, rx, t.i % 16, data, room);
            if o.rx.state == WaitCF then o.deliveries == [] && RxLossy(es, p, o.rx, t.i, c + 1, t.i)
            else o.deliveries == [] || o.deliveries == [p]
  {
    SequenceGap(seen, c, acc, t.i);
    if acc == c && t.i == c + 1 {
      AcceptExpected(es, er, p, rx, seen, c, t, data, room);
    } else {
      AcceptLate(es, er, p, rx, seen, c, acc, t, data, room);
    }
  }

  lemma ConsecutiveHeard(es: Env, er: Env, p: Bytes, l: Lossy, t: Tag, sn: nat, data: Bytes, room: bool)
    requires ReceiverOk(es, er, p, l) && l.seen <= t.i
    requires t.i > 0 && t.k == 0 && TagOk(es, [p], t) && Closed(es, [p], t) && Ranged(es, p, t)
    requires PduMatches(es, p, t, ConsecutiveFrame(sn, data)) && |data| <= ChunkSize(es)
    ensures var o := HandleConsecutiveFrame(er, l.rx, sn, data, room);
            ReceiverOk(es, er, p, l.(rx := o.rx, delivered := l.delivered + o.deliveries, seen := t.i))
  {
    var o := HandleConsecutiveFrame(er, l.rx, sn, data, room);
    ConsecutiveFrameKeeps(er, l.rx, sn, data, room);
    if l.rx.state == WaitCF && sn == l.rx.seqNum {
      var c: nat, acc: nat :| RxLossy(es, p, l.rx, l.seen, c, acc);
      AcceptLossy(es, er, p, l.rx, l.seen, c, acc, t, data, room);
    } else {
      assert l.delivered + o.deliveries == l.delivered;
    }
  }

  /** Hearing a frame of the transfer once more, or for the first time. */
  lemma ListenKeeps(es: Env, er: Env, p: Bytes, l: Lossy, room: bool)
    requires Connected(es, er) && LossyInv(es, er, p, l) && l.queue != []
    requires !FitsSingleFrame(es, |p|)
    ensures ReceiverOk(es, er, p, Listen(er, l, room))
    ensures Listen(er, l, room).seen == l.queue[0].tag.value.i
  {
    var e := l.queue[0];
    assert FrameOk(es, er, p, e);
    var t, pdu := e.tag.value, Decoded(er, e.frame).value;
    var o := HandlePDU(er, Session(IdleTx, l.rx), pdu, room);
    assert Heard(er, l.rx, e.frame, room) == o;
    assert [p][t.k] == p;
    if t.i == 0 {
      FirstHeard(es, er, p, l, pdu.totalSize, pdu.data);
      assert l.delivered + o.deliveries == l.delivered;
    } else {
      ConsecutiveHeard(es, er, p, l, t, pdu.sequenceNumber, pdu.data, room);
    }
  }

  // ---------- the sender ----------

  lemma FillFits(env: Env, n: nat)
    requires 0 < n <= ChunkSize(env)
    ensures n + |WireFill(env.cfg.paddingByte, env.fd, n + 1)| <= ChunkSize(env)
  {
  }

  /** The First Frame's entry and the sender it leaves. */
  lemma FirstEntry(es: Env, er: Env, p: Bytes, tx: Tx) returns (e: Entry, o: TxOut)
    requires Connected(es, er) && TxInv(es, tx) && tx.state == Idle && !FitsSingleFrame(es, |p|) && |p| < TWO32
    ensures o == InitiateTx(es, tx, p) && |o.frames| == 1 && TxInv(es, o.tx)
    ensures ToCANFrame(o.frames[0], es.brs).Ok?
    ensures e == Entry(Carry(ToCANFrame(o.frames[0], es.brs).value), StartTag(es, 0, p))
    ensures FrameOk(es, er, p, e) && e.tag.value.i == 0 && e.tag.value.k == 0 && TxRel(es, o.tx, [p], e.tag.value)
  {
    o := InitiateTx(es, tx, p);
    StartSendsFirst(es, er, tx, [], p);
    InitiateTxKeeps(es, tx, p);
    FirstFrameArrives(es, er, p);
    assert [] + [p] == [p];
    e := Entry(Carry(ToCANFrame(o.frames[0], es.brs).value), StartTag(es, 0, p));
  }

  /** The first frame on the queue is the First Frame. */
  lemma BeginKeeps(es: Env, er: Env, p: Bytes, l: Lossy)
    requires Connected(es, er) && LossyInv(es, er, p, l) && CanDo(l, Begin)
    requires !FitsSingleFrame(es, |p|) && |p| < TWO32
    ensures LossyInv(es, er, p, Do(es, er, p, l, Begin))
  {
    var e, o := FirstEntry(es, er, p, l.tx);
    var l' := Do(es, er, p, l, Begin);
    assert l' == l.(tx := o.tx, queue := [e], last := e.tag);
  }

  lemma QueuePush(es: Env, er: Env, p: Bytes, q: seq<Entry>, seen: int, lastI: int, e: Entry)
    requires QueueOk(es, er, p, q, seen, lastI) && FrameOk(es, er, p, e)
    requires seen <= lastI && e.tag.value.i == lastI + 1
    ensures QueueOk(es, er, p, q + [e], seen, lastI + 1)
  {
  }

  lemma ExpireKeeps(es: Env, er: Env, p: Bytes, l: Lossy)
    requires Connected(es, er) && LossyInv(es, er, p, l) && CanDo(l, Expire)
    ensures LossyInv(es, er, p, Do(es, er, p, l, Expire))
  {
    var last, o := l.last.value, STminTimeout(es, l.tx);
    TransmitShape(es, l.tx);
    STminTimeoutKeeps(es, l.tx);
    var e := NextFrame(es, er, p, l.tx, last, o);
    QueuePush(es, er, p, l.queue, l.seen, last.i, e);
    assert Do(es, er, p, l, Expire).queue == l.queue + [e];
  }

  /** The next frame starts after full frames and carries at most its capacity. */
  lemma NextFrame(es: Env, er: Env, p: Bytes, tx: Tx, last: Tag, o: TxOut) returns (e: Entry)
    requires Connected(es, er) && TxInv(es, tx) && tx.state != Idle && TxRel(es, tx, [p], last)
    requires Closed(es, [p], last) && Transmits(es, tx, o)
    ensures ToCANFrame(o.frames[0], es.brs).Ok?
    ensures e == Entry(Carry(ToCANFrame(o.frames[0], es.brs).value), Some(NextTag(es, [p], last)))
    ensures FrameOk(es, er, p, e) && TxRel(es, o.tx, [p], e.tag.value)
  {
    assert [p][0] == p;
    var size := Min(ChunkSize(es), |tx.buffer|);
    TransmitSendsNext(es, er, tx, [p], last, o);
    ClosedNext(es, [p], last);
    ConsecutiveFrameArrives(es, er, tx.buffer[..size], tx.seqNum);
    FillFits(es, size);
    e := Entry(Carry(ToCANFrame(o.frames[0], es.brs).value), Some(NextTag(es, [p], last)));
  }

  lemma OtherTxKeeps(es: Env, er: Env, p: Bytes, l: Lossy, act: LossyAction)
    requires Connected(es, er) && LossyInv(es, er, p, l) && CanDo(l, act)
    requires act.FlowControl? || act.FCExpires?
    ensures LossyInv(es, er, p, Do(es, er, p, l, act))
  {
  }

  lemma QueueTail(es: Env, er: Env, p: Bytes, q: seq<Entry>, seen: int, lastI: int)
    requires QueueOk(es, er, p, q, seen, lastI) && q != []
    ensures QueueOk(es, er, p, q, q[0].tag.value.i, lastI)
    ensures QueueOk(es, er, p, q[1..], q[0].tag.value.i, lastI)
    ensures seen <= q[0].tag.value.i <= lastI
  {
    Ascending(q, 0);
  }

  lemma Ascending(q: seq<Entry>, j: nat)
    requires j < |q| && (forall i :: 0 <= i < |q| ==> q[i].tag.Some?)
    requires forall i :: 0 <= i < |q| - 1 ==> q[i].tag.value.i < q[i + 1].tag.value.i
    ensures forall i :: j <= i < |q| ==> q[j].tag.value.i <= q[i].tag.value.i
    decreases |q| - j
  {
    if j + 1 < |q| { Ascending(q, j + 1); }
  }

  lemma DoKeeps(es: Env, er: Env, p: Bytes, l: Lossy, act: LossyAction)
    requires Connected(es, er) && LossyInv(es, er, p, l) && CanDo(l, act)
    requires !FitsSingleFrame(es, |p|) && |p| < TWO32
    ensures LossyInv(es, er, p, Do(es, er, p, l, act))
  {
    match act
    case Begin => BeginKeeps(es, er, p, l);
    case Expire => ExpireKeeps(es, er, p, l);
    case Drop => QueueTail(es, er, p, l.queue, l.seen, l.last.value.i);
    case Hear(room) =>
      ListenKeeps(es, er, p, l, room);
      QueueTail(es, er, p, l.queue, l.seen, l.last.value.i);
    case HearAndKeep(room) =>
      ListenKeeps(es, er, p, l, room);
      QueueTail(es, er, p, l.queue, l.seen, l.last.value.i);
    case CFExpires =>
    case _ => OtherTxKeeps(es, er, p, l, act);
  }

  ghost predicate LossyRun(es: Env, er: Env, p: Bytes, ls: seq<Lossy>, acts: seq<LossyAction>) {
    && |ls| == |acts| + 1 && ls[0] == Fresh
    && forall i :: 0 <= i < |acts| ==>
         && CanDo(ls[i], acts[i]) && (ls[i].rx.state == WaitCF ==> |ls[i].rx.buffer| < ls[i].rx.frameLen)
         && ls[i + 1] == Do(es, er, p, ls[i], acts[i])
  }

  lemma {:induction false} LossyRunKeeps(es: Env, er: Env, p: Bytes, ls: seq<Lossy>, acts: seq<LossyAction>)
    requires Connected(es, er) && LossyRun(es, er, p, ls, acts)
    requires !FitsSingleFrame(es, |p|) && |p| < TWO32
    ensures LossyInv(es, er, p, ls[|acts|])
    decreases |acts|
  {
    if acts != [] {
      var n := |acts| - 1;
      LossyRunKeeps(es, er, p, ls[..n + 1], acts[..n]);
      DoKeeps(es, er, p, ls[n], acts[n]);
    }
  }

  // ---------- a Single Frame ----------

  /** What the receiver takes a Single Frame for. */
  function Arriving(es: Env, p: Bytes): Bytes {
    if Misread(es, p) then Fill(es.cfg.paddingByte.value, es.cfg.paddingByte.value) else p
  }

  function Copies(p: Bytes, n: nat): seq<Bytes> { if n == 0 then [] else Copies(p, n - 1) + [p] }

  /** How often a frame is heard with room in the receive queue. */
  function Hearings(acts: seq<LossyAction>): nat {
    if acts == [] then 0
    else
      var act := acts[|acts| - 1];
      Hearings(acts[..|acts| - 1]) + if (act.Hear? || act.HearAndKeep?) && act.room then 1 else 0
  }

  /** How often its payload is delivered. */
  function Times(es: Env, p: Bytes, acts: seq<LossyAction>): nat {
    if Unparseable(es, p) then 0 else Hearings(acts)
  }

  lemma OneMoreCopy(es: Env, p: Bytes, acts: seq<LossyAction>)
    requires acts != []
    ensures var front, last := acts[..|acts| - 1], acts[|acts| - 1];
            Copies(Arriving(es, p), Times(es, p, acts))
            == Copies(Arriving(es, p), Times(es, p, front))
               + if Hearings([last]) == 1 && !Unparseable(es, p) then [Arriving(es, p)] else []
  {
    var last, before := acts[|acts| - 1], Copies(Arriving(es, p), Times(es, p, acts[..|acts| - 1]));
    assert [last][..0] == [] && before + [] == before;
  }

  /** The Single Frame's entry on the queue. */
  predicate SingleEntry(es: Env, er: Env, p: Bytes, e: Entry) {
    Decoded(er, e.frame) == if Unparseable(es, p) then None else Some(SingleFrame(Arriving(es, p)))
  }

  /** Both halves are idle, and only the Single Frame is on the queue. */
  predicate SingleInv(es: Env, er: Env, p: Bytes, l: Lossy) {
    TxInv(es, l.tx) && l.tx.state == Idle && l.rx == IdleRx && forall e :: e in l.queue ==> SingleEntry(es, er, p, e)
  }

  lemma SingleBegins(es: Env, er: Env, p: Bytes, l: Lossy)
    requires Connected(es, er) && FitsSingleFrame(es, |p|) && SingleInv(es, er, p, l) && CanDo(l, Begin)
    ensures var r := Do(es, er, p, l, Begin);
            SingleInv(es, er, p, r) && |r.queue| == |l.queue| + 1 && r.delivered == l.delivered
  {
    InitiateTxKeeps(es, l.tx, p);
    SingleFrameArrives(es, er, p);
  }

  lemma SingleHeard(es: Env, er: Env, p: Bytes, l: Lossy, room: bool)
    requires SingleInv(es, er, p, l) && l.queue != []
    ensures var r := Listen(er, l, room);
            && r.rx == IdleRx && r.tx == l.tx && r.queue == l.queue
            && r.delivered == l.delivered + if room && !Unparseable(es, p) then [Arriving(es, p)] else []
  {
    assert SingleEntry(es, er, p, l.queue[0]);
    assert l.delivered + [] == l.delivered;
  }

  lemma SingleDoes(es: Env, er: Env, p: Bytes, l: Lossy, act: LossyAction)
    requires Connected(es, er) && FitsSingleFrame(es, |p|) && SingleInv(es, er, p, l) && CanDo(l, act)
    ensures var r := Do(es, er, p, l, act);
            && SingleInv(es, er, p, r)
            && r.delivered == l.delivered + if Hearings([act]) == 1 && !Unparseable(es, p)
                                            then [Arriving(es, p)] else []
  {
    assert [act][..0] == [] && l.delivered + [] == l.delivered;
    match act
    case Begin => SingleBegins(es, er, p, l);
    case Hear(room) => SingleHeard(es, er, p, l, room);
    case HearAndKeep(room) => SingleHeard(es, er, p, l, room);
    case _ =>
  }

  lemma {:induction false} SingleFrameCopies(es: Env, er: Env, p: Bytes, ls: seq<Lossy>, acts: seq<LossyAction>)
    requires Connected(es, er) && LossyRun(es, er, p, ls, acts) && FitsSingleFrame(es, |p|)
    ensures SingleInv(es, er, p, ls[|acts|])
    ensures ls[|acts|].delivered == Copies(Arriving(es, p), Times(es, p, acts))
    decreases |acts|
  {
    if acts != [] {
      var n := |acts| - 1;
      SingleFrameCopies(es, er, p, ls[..n + 1], acts[..n]);
      SingleDoes(es, er, p, ls[n], acts[n]);
      OneMoreCopy(es, p, acts);
    }
  }

  // ---------- every payload ----------

  lemma SeveralFrames(es: Env, er: Env, p: Bytes, ls: seq<Lossy>, acts: seq<LossyAction>)
    requires Connected(es, er) && LossyRun(es, er, p, ls, acts)
    requires !FitsSingleFrame(es, |p|) && |p| < TWO32
    ensures ls[|acts|].delivered == [] || ls[|acts|].delivered == [p]
  {
    LossyRunKeeps(es, er, p, ls, acts);
  }

  /** However many frames of one transfer are lost and however often each is heard in a row: a payload
      sent as several frames is delivered once as sent or not at all, although the last frame arrives
      with fill; one sent as a Single Frame is delivered as often as that frame is heard with room. */
  lemma AllOrNothing(es: Env, er: Env, p: Bytes, ls: seq<Lossy>, acts: seq<LossyAction>)
    requires Connected(es, er) && LossyRun(es, er, p, ls, acts) && |p| < TWO32
    ensures var delivered := ls[|acts|].delivered;
            if FitsSingleFrame(es, |p|)
            then delivered == Copies(Arriving(es, p), Times(es, p, acts))
            else delivered == [] || delivered == [p]
  {
    if FitsSingleFrame(es, |p|) {
      SingleFrameCopies(es, er, p, ls, acts);
    } else {
      SeveralFrames(es, er, p, ls, acts);
    }
  }

  ghost predicate AtMostOnce(es: Env, er: Env, p: Bytes) {
    forall ls: seq<Lossy>, acts: seq<LossyAction> ::
      LossyRun(es, er, p, ls, acts) ==> |ls[|acts|].delivered| <= 1
  }

  /** The frame is heard, kept by the link, and heard again. */
  lemma HeardTwice(es: Env, er: Env, p: Bytes) returns (ls: seq<Lossy>, acts: seq<LossyAction>)
    requires Connected(es, er) && FitsSingleFrame(es, |p|) && !Unparseable(es, p)
    ensures LossyRun(es, er, p, ls, acts) && ls[|acts|].delivered == [Arriving(es, p), Arriving(es, p)]
  {
    SingleBegins(es, er, p, Fresh);
    var l1 := Do(es, er, p, Fresh, Begin);
    var l2 := HeardAgain(es, er, p, l1, HearAndKeep(true));
    var l3 := HeardAgain(es, er, p, l2, Hear(true));
    ls, acts := [Fresh, l1, l2, l3], [Begin, HearAndKeep(true), Hear(true)];
    assert [] + [Arriving(es, p)] + [Arriving(es, p)] == [Arriving(es, p), Arriving(es, p)];
  }

  lemma HeardAgain(es: Env, er: Env, p: Bytes, l: Lossy, act: LossyAction) returns (r: Lossy)
    requires Connected(es, er) && FitsSingleFrame(es, |p|) && !Unparseable(es, p)
    requires SingleInv(es, er, p, l) && l.queue != [] && act in {HearAndKeep(true), Hear(true)}
    ensures CanDo(l, act) && r == Do(es, er, p, l, act) && SingleInv(es, er, p, r)
    ensures r.delivered == l.delivered + [Arriving(es, p)] && (act.HearAndKeep? ==> r.queue == l.queue)
  {
    SingleDoes(es, er, p, l, act);
    SingleHeard(es, er, p, l, true);
    r := Do(es, er, p, l, act);
  }

  /** No run delivers a payload more than once if and only if it is sent as several frames, or is the
      empty payload whose Single Frame does not parse. */
  lemma AtMostOnceIff(es: Env, er: Env, p: Bytes)
    requires Connected(es, er) && |p| < TWO32
    ensures AtMostOnce(es, er, p) <==> !FitsSingleFrame(es, |p|) || Unparseable(es, p)
  {
    if !FitsSingleFrame(es, |p|) || Unparseable(es, p) {
      forall ls: seq<Lossy>, acts: seq<LossyAction> | LossyRun(es, er, p, ls, acts)
        ensures |ls[|acts|].delivered| <= 1
      {
        AllOrNothing(es, er, p, ls, acts);
      }
    } else {
      var ls, acts := HeardTwice(es, er, p);
    }
  }
}
