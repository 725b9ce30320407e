/** One direction of a connection: the sender's transmit half, the queue of CAN frames on
    the way, and the receiver's receive half, with the history that relates them. */
module Direction {
  import opened Basics
  import opened Framing
  import opened Pdu
  import opened Link
  import opened IsoTpSpec
  import Can

  /** History of a data frame: frame `i` of the `k`-th started payload carries its bytes
      `start..end`. Neither session ever sees a tag. */
  datatype Tag = Tag(k: int, i: nat, start: nat, end: nat)

  /** A frame in the queue; flow control and frames that do not parse carry no tag. */
  datatype Entry = Entry(frame: Can.Frame, tag: Option<Tag>)

  /** Payloads the sender started, payloads the receiver delivered, and the last tagged frame
      the receiver took from the queue. */
  datatype History = History(sent: seq<Bytes>, delivered: seq<Bytes>, consumed: Tag)

  const NOTHING := Tag(-1, 0, 0, 0)

  datatype Dir = Dir(tx: Tx, queue: seq<Entry>, rx: Rx, h: History)

  /** Sender and receiver of one direction agree on the identifier and the mode. */
  predicate Matched(es: Env, er: Env) {
    ValidEnv(es) && ValidEnv(er) && es.txID == er.rxID && es.fd == er.fd
  }

  /** And the transmit address is not switched to somebody else at the moment. */
  predicate Paired(es: Env, er: Env) { Matched(es, er) && Direct(es) }

  // ---------- frames on the wire ----------

  /** The bytes that reach the receiver's parser, when the frame is for it. */
  function Received(er: Env, f: Can.Frame): Option<Bytes> {
    match FromCANFrame(f)
    case Some(msg) => if msg.arbitrationID == er.rxID then Some(msg.data) else None
    case None => None
  }

  function Decoded(er: Env, f: Can.Frame): Option<PDU> {
    match Received(er, f)
    case Some(p) => (match ParseFrame(p) case Ok(pdu) => Some(pdu) case Err(_) => None)
    case None => None
  }

  function ChunkSize(env: Env): nat { FrameDataLength(env.fd) - 1 }

  /** Payloads that survive the link: the length fits the FF's 32 bits, and the empty payload is
      not sent on classic CAN with a padding byte the parser would read as an escaped length. */
  predicate Sendable(es: Env, p: Bytes) {
    |p| < TWO32 && !Misread(es, p)
  }

  predicate EmptyClassic(es: Env, p: Bytes) {
    p == [] && !es.fd && es.cfg.paddingByte.Some?
  }

  predicate Misread(es: Env, p: Bytes) {
    EmptyClassic(es, p) && 1 <= es.cfg.paddingByte.value <= 6
  }

  /** An empty payload whose padded frame does not parse at all. */
  predicate Unparseable(es: Env, p: Bytes) {
    EmptyClassic(es, p) && es.cfg.paddingByte.value > 6
  }

  lemma DataCrosses(es: Env, er: Env, data: Bytes)
    requires Paired(es, er) && |data| <= FrameDataLength(es.fd)
    ensures var sent := ToCANFrame(DataMsg(es, data), es.brs);
            sent.Ok? && Received(er, Carry(sent.value))
                        == Some(data + WireFill(es.cfg.paddingByte, es.fd, |data|))
    ensures |data| == FrameDataLength(es.fd) ==> WireFill(es.cfg.paddingByte, es.fd, |data|) == []
  {
    CrossesLink(es.cfg.paddingByte, es.fd, es.brs, DataID(es), data);
  }

  /** While the transmit address is switched, the receiver hears nothing of the data. */
  lemma DivertedIsForeign(es: Env, er: Env, data: Bytes)
    requires Matched(es, er) && !Direct(es) && |data| <= FrameDataLength(es.fd)
    ensures var sent := ToCANFrame(DataMsg(es, data), es.brs);
            sent.Ok? && Received(er, Carry(sent.value)) == None
  {
    CrossesLink(es.cfg.paddingByte, es.fd, es.brs, DataID(es), data);
  }

  /** What the receiver decodes from a Single Frame: the payload itself, unless it is the
      empty payload on padded classic CAN, where a non-zero padding byte is taken for a length. */
  lemma SingleFrameArrives(es: Env, er: Env, p: Bytes)
    requires Paired(es, er) && FitsSingleFrame(es, |p|)
    ensures CreateSingleFrame(p, FrameDataLength(es.fd)).Ok?
    ensures var data := CreateSingleFrame(p, FrameDataLength(es.fd)).value;
            var sent := ToCANFrame(DataMsg(es, data), es.brs);
            && sent.Ok?
            && Decoded(er, Carry(sent.value))
               == if Unparseable(es, p) then None
                  else if Misread(es, p)
                  then Some(SingleFrame(Fill(es.cfg.paddingByte.value, es.cfg.paddingByte.value)))
                  else Some(SingleFrame(p))
  {
    var max := FrameDataLength(es.fd);
    var data := CreateSingleFrame(p, max).value;
    DataCrosses(es, er, data);
    var fill := WireFill(es.cfg.paddingByte, es.fd, |data|);
    SingleFrameRoundTrip(p, max, fill);
    if EmptyClassic(es, p) {
      var b := es.cfg.paddingByte.value;
      assert data == [0] && fill == Fill(7, b);
      var w := data + fill;
      assert w[0] == 0 && w[1] == b && |w| == 8;
      if b <= 6 { assert w[2..2 + b] == Fill(b, b); }
      assert Fill(0, 0) == p;
    }
  }

  lemma FirstFrameArrives(es: Env, er: Env, p: Bytes)
    requires Paired(es, er) && !FitsSingleFrame(es, |p|) && |p| < TWO32
    ensures var n := FirstChunkSize(es, |p|);
            && 0 < n < |p|
            && CreateFirstFrame(p[..n], |p|, FrameDataLength(es.fd)).Ok?
            && var data := CreateFirstFrame(p[..n], |p|, FrameDataLength(es.fd)).value;
               var sent := ToCANFrame(DataMsg(es, data), es.brs);
               && sent.Ok?
               && Decoded(er, Carry(sent.value)) == Some(FirstFrame(|p|, p[..n]))
  {
    var n := FirstChunkSize(es, |p|);
    var max := FrameDataLength(es.fd);
    var data := CreateFirstFrame(p[..n], |p|, max).value;
    assert |data| == max;
    DataCrosses(es, er, data);
    assert data + [] == data;
    FirstFrameRoundTrip(p[..n], |p|, max);
  }

  lemma ConsecutiveFrameArrives(es: Env, er: Env, chunk: Bytes, sn: nat)
    requires Paired(es, er) && 0 < |chunk| <= ChunkSize(es) && sn <= 15
    ensures CreateConsecutiveFrame(chunk, sn).Ok?
    ensures var data := CreateConsecutiveFrame(chunk, sn).value;
            var sent := ToCANFrame(DataMsg(es, data), es.brs);
            var fill := WireFill(es.cfg.paddingByte, es.fd, |chunk| + 1);
            && sent.Ok?
            && Decoded(er, Carry(sent.value)) == Some(ConsecutiveFrame(sn, chunk + fill))
            && (|chunk| == ChunkSize(es) ==> fill == [])
  {
    var data := CreateConsecutiveFrame(chunk, sn).value;
    DataCrosses(es, er, data);
    ConsecutiveFrameRoundTrip(chunk, sn, WireFill(es.cfg.paddingByte, es.fd, |data|));
  }

  /** An automatic flow control reaches the other end with the sender's own parameters. */
  lemma FlowControlArrives(es: Env, er: Env)
    requires Matched(es, er) && !es.cfg.manualFlowControl
    ensures var msgs := FlowControlMsgs(es);
            && |msgs| == 1
            && var sent := ToCANFrame(msgs[0], es.brs);
               && sent.Ok?
               && Decoded(er, Carry(sent.value))
                  == Some(FlowControlFrame(CONTINUE_TO_SEND, es.cfg.blockSize, es.cfg.stMin * 1000))
  {
    var data := CreateFlowControl(CONTINUE_TO_SEND, es.cfg.blockSize, es.cfg.stMin);
    CrossesLink(es.cfg.paddingByte, es.fd, es.brs, es.txID, data);
    FlowControlRoundTrip(CONTINUE_TO_SEND, es.cfg.blockSize, es.cfg.stMin,
                         WireFill(es.cfg.paddingByte, es.fd, |data|));
  }

  // ---------- tags ----------

  predicate TagOk(es: Env, sent: seq<Bytes>, t: Tag) {
    && 0 <= t.k < |sent|
    && var n := |sent[t.k]|;
       && t.start <= t.end <= n
       && (t.i == 0 ==> t.start == 0 && t.end == if FitsSingleFrame(es, n) then n else FirstChunkSize(es, n))
       && (t.i > 0 ==> !FitsSingleFrame(es, n) && t.start < t.end
                       && t.end == Min(t.start + ChunkSize(es), n))
  }

  predicate PduMatches(es: Env, p: Bytes, t: Tag, pdu: PDU)
    requires t.start <= t.end <= |p|
  {
    if t.i == 0 then
      if FitsSingleFrame(es, |p|) then pdu == SingleFrame(p) else pdu == FirstFrame(|p|, p[..t.end])
    else
      && pdu.ConsecutiveFrame? && pdu.sequenceNumber == t.i % 16
      && |pdu.data| >= t.end - t.start
      && pdu.data[..t.end - t.start] == p[t.start..t.end]
      && (t.end < |p| ==> |pdu.data| == t.end - t.start)
  }

  predicate EntryOk(es: Env, er: Env, sent: seq<Bytes>, e: Entry) {
    var pdu := Decoded(er, e.frame);
    match e.tag
    case Some(t) => TagOk(es, sent, t) && pdu.Some? && PduMatches(es, sent[t.k], t, pdu.value)
    case None => pdu.Some? ==> pdu.value.FlowControlFrame?
  }

  /** The next data frame after `a` continues the same payload or starts a later one. */
  predicate Follows(sent: seq<Bytes>, a: Tag, b: Tag) {
    || (0 <= a.k < |sent| && b.k == a.k && b.i == a.i + 1 && b.start == a.end && a.end < |sent[a.k]|)
    || (b.k > a.k && b.i == 0)
  }

  function Tags(q: seq<Entry>): seq<Tag> {
    if q == [] then []
    else (if q[0].tag.Some? then [q[0].tag.value] else []) + Tags(q[1..])
  }

  lemma {:induction false} TagsAppend(q: seq<Entry>, e: Entry)
    ensures Tags(q + [e]) == Tags(q) + (if e.tag.Some? then [e.tag.value] else [])
  {
    if q == [] {
      assert ([] + [e])[1..] == [];
    } else {
      TagsAppend(q[1..], e);
      assert (q + [e])[1..] == q[1..] + [e];
    }
  }

  /** The data frames from the last consumed one to the last sent one. */
  function Path(d: Dir): seq<Tag> { [d.h.consumed] + Tags(d.queue) }

  function LastSent(d: Dir): Tag { Path(d)[|Path(d)| - 1] }

  predicate Chain(sent: seq<Bytes>, path: seq<Tag>) {
    forall j :: 0 < j < |path| ==> Follows(sent, path[j - 1], path[j])
  }

  /** `xs` is an in-order subsequence of `ys`. */
  predicate Subsequence(xs: seq<Bytes>, ys: seq<Bytes>)
    decreases |ys|
  {
    xs == [] ||
    (ys != [] && (
       || (xs[|xs| - 1] == ys[|ys| - 1] && Subsequence(xs[..|xs| - 1], ys[..|ys| - 1]))
       || Subsequence(xs, ys[..|ys| - 1])))
  }

  lemma SubsequenceExtend(xs: seq<Bytes>, ys: seq<Bytes>, y: Bytes)
    requires Subsequence(xs, ys)
    ensures Subsequence(xs, ys + [y]) && Subsequence(xs + [y], ys + [y])
  {
  }

  lemma {:induction false} SubsequenceGrow(xs: seq<Bytes>, ys: seq<Bytes>, m: nat, n: nat)
    requires m <= n <= |ys| && Subsequence(xs, ys[..m])
    ensures Subsequence(xs, ys[..n])
    decreases n - m
  {
    if m < n {
      SubsequenceExtend(xs, ys[..m], ys[m]);
      assert ys[..m] + [ys[m]] == ys[..m + 1];
      SubsequenceGrow(xs, ys, m + 1, n);
    }
  }

  // ---------- the invariant of one direction ----------

  /** An active sender is part-way through the last started payload, right after the last sent
      frame, unless its frames go elsewhere. */
  predicate TxRel(es: Env, tx: Tx, sent: seq<Bytes>, last: Tag) {
    && last.k < |sent|
    && (tx.state != Idle && Direct(es) ==>
          && last.k == |sent| - 1 >= 0
          && last.end < |sent[last.k]|
          && !FitsSingleFrame(es, |sent[last.k]|)
          && tx.buffer == sent[last.k][last.end..]
          && tx.seqNum == (last.i + 1) % 16)
  }

  /** A receiver in WaitCF holds exactly the prefix carried up to the last consumed frame. */
  predicate RxRel(rx: Rx, sent: seq<Bytes>, c: Tag) {
    && rx.state in {Idle, WaitCF}
    && (rx.state == WaitCF ==>
          && 0 <= c.k < |sent|
          && c.end < |sent[c.k]|
          && rx.frameLen == |sent[c.k]|
          && rx.buffer == sent[c.k][..c.end]
          && rx.seqNum == (c.i + 1) % 16)
  }

  /** How many of the started payloads the receiver may have delivered so far. */
  function Settled(rx: Rx, c: Tag): int {
    if rx.state == WaitCF then c.k else c.k + 1
  }

  predicate DirInv(es: Env, er: Env, d: Dir) {
    && (forall e :: e in d.queue ==> EntryOk(es, er, d.h.sent, e))
    && Chain(d.h.sent, Path(d))
    && TxRel(es, d.tx, d.h.sent, LastSent(d))
    && RxRel(d.rx, d.h.sent, d.h.consumed)
    && 0 <= Settled(d.rx, d.h.consumed) <= |d.h.sent|
    && Subsequence(d.h.delivered, d.h.sent[..Settled(d.rx, d.h.consumed)])
  }

  // ---------- steps of one direction ----------

  function Push(d: Dir, e: Entry): Dir { d.(queue := d.queue + [e]) }

  lemma PushPath(d: Dir, e: Entry)
    ensures Path(Push(d, e)) == Path(d) + (if e.tag.Some? then [e.tag.value] else [])
  {
    TagsAppend(d.queue, e);
  }

  /** A frame without tag (flow control, noise) changes nothing about the data. */
  lemma PushUntagged(es: Env, er: Env, d: Dir, e: Entry)
    requires DirInv(es, er, d) && e.tag == None && EntryOk(es, er, d.h.sent, e)
    ensures DirInv(es, er, Push(d, e))
  {
    PushPath(d, e);
  }

  /** Starting another payload leaves every earlier entry and the chain as they were. */
  lemma StartKeepsEntries(es: Env, er: Env, d: Dir, p: Bytes)
    requires DirInv(es, er, d)
    ensures forall e :: e in d.queue ==> EntryOk(es, er, d.h.sent + [p], e)
    ensures Chain(d.h.sent + [p], Path(d))
  {
  }

  function StartTag(es: Env, k: nat, p: Bytes): Option<Tag> {
    if Unparseable(es, p) then None
    else Some(Tag(k, 0, 0, if FitsSingleFrame(es, |p|) then |p| else Max(0, FirstChunkSize(es, |p|))))
  }

  /** The tag of a payload's first frame, when that frame goes to the peer. */
  function FirstTag(es: Env, k: nat, p: Bytes): Option<Tag> {
    if Direct(es) then StartTag(es, k, p) else None
  }

  lemma PushStart(es: Env, er: Env, d: Dir, p: Bytes, frame: Can.Frame, tx: Tx)
    requires DirInv(es, er, d)
    requires var sent := d.h.sent + [p];
             var tag := FirstTag(es, |d.h.sent|, p);
             && EntryOk(es, er, sent, Entry(frame, tag))
             && (tx.state != Idle && Direct(es) ==>
                   tag.Some? && TxRel(es, tx, sent, tag.value))
    ensures DirInv(es, er, d.(tx := tx, queue := d.queue + [Entry(frame, FirstTag(es, |d.h.sent|, p))],
                              h := d.h.(sent := d.h.sent + [p])))
  {
    var e := Entry(frame, FirstTag(es, |d.h.sent|, p));
    StartKeepsEntries(es, er, d, p);
    PushPath(d, e);
    var d' := Push(d, e).(tx := tx, h := d.h.(sent := d.h.sent + [p]));
    assert Path(d') == Path(Push(d, e));
    assert d'.h.sent[..Settled(d.rx, d.h.consumed)] == d.h.sent[..Settled(d.rx, d.h.consumed)];
    ChainBelow(d.h.sent, Path(d));
    if tx.state == Idle || !Direct(es) { assert TxRel(es, tx, d'.h.sent, LastSent(d')); }
  }

  /** Message numbers grow along a chain. */
  lemma ChainBelow(sent: seq<Bytes>, path: seq<Tag>)
    requires path != [] && Chain(sent, path)
    ensures forall j :: 0 <= j < |path| ==> path[j].k <= path[|path| - 1].k
    decreases |path|
  {
    if |path| > 1 {
      var front := path[..|path| - 1];
      forall j | 0 < j < |front| ensures Follows(sent, front[j - 1], front[j]) {
        assert Follows(sent, path[j - 1], path[j]);
      }
      ChainBelow(sent, front);
      assert Follows(sent, path[|path| - 2], path[|path| - 1]);
    }
  }

  /** The frame after `last` when the sender continues the same payload. */
  function NextTag(es: Env, sent: seq<Bytes>, last: Tag): Tag
    requires 0 <= last.k < |sent|
  {
    Tag(last.k, last.i + 1, last.end, Max(last.end, Min(last.end + ChunkSize(es), |sent[last.k]|)))
  }

  lemma PushContinuation(es: Env, er: Env, d: Dir, frame: Can.Frame, tx: Tx)
    requires DirInv(es, er, d) && d.tx.state != Idle && Direct(es)
    requires EntryOk(es, er, d.h.sent, Entry(frame, Some(NextTag(es, d.h.sent, LastSent(d)))))
    requires TxRel(es, tx, d.h.sent, NextTag(es, d.h.sent, LastSent(d)))
    ensures DirInv(es, er, Push(d, Entry(frame, Some(NextTag(es, d.h.sent, LastSent(d))))).(tx := tx))
  {
    var e := Entry(frame, Some(NextTag(es, d.h.sent, LastSent(d))));
    PushPath(d, e);
    var d' := Push(d, e).(tx := tx);
    assert Path(d') == Path(Push(d, e)) == Path(d) + [e.tag.value];
    assert Follows(d.h.sent, LastSent(d), e.tag.value);
  }

  /** Taking the head entry from the queue. */
  function Pop(d: Dir): Dir
    requires d.queue != []
  {
    var e := d.queue[0];
    d.(queue := d.queue[1..], h := if e.tag.Some? then d.h.(consumed := e.tag.value) else d.h)
  }

  lemma PopPath(d: Dir)
    requires d.queue != []
    ensures d.queue[0].tag.None? ==> Path(Pop(d)) == Path(d)
    ensures d.queue[0].tag.Some? ==>
              |Path(d)| > 1 && Path(d)[1] == d.queue[0].tag.value && Path(Pop(d)) == Path(d)[1..]
    ensures LastSent(Pop(d)) == LastSent(d)
  {
  }

  lemma PopUntagged(es: Env, er: Env, d: Dir)
    requires DirInv(es, er, d) && d.queue != [] && d.queue[0].tag.None?
    ensures DirInv(es, er, Pop(d))
  {
    PopPath(d);
  }

  /** What a tagged frame may do to the receiver: reset it, extend its prefix, or complete
      exactly the payload the frame belongs to. */
  predicate Receives(d: Dir, t: Tag, rx: Rx, deliveries: seq<Bytes>)
    requires 0 <= t.k < |d.h.sent|
  {
    && RxRel(rx, d.h.sent, t)
    && (deliveries == [] || (deliveries == [d.h.sent[t.k]] && rx.state == Idle
                             && (t.i == 0 || d.rx.state == WaitCF)))
    && (rx.state == WaitCF ==> t.i == 0 || d.rx.state == WaitCF)
  }

  /** One more of the started payloads is delivered. */
  lemma DeliverNext(xs: seq<Bytes>, ys: seq<Bytes>, k: nat)
    requires k < |ys| && Subsequence(xs, ys[..k])
    ensures Subsequence(xs, ys[..k + 1]) && Subsequence(xs + [ys[k]], ys[..k + 1])
  {
    SubsequenceExtend(xs, ys[..k], ys[k]);
    assert ys[..k] + [ys[k]] == ys[..k + 1];
  }

  /** The delivered payloads stay a subsequence of what may have been delivered. */
  lemma DeliveredGrows(d: Dir, t: Tag, rx: Rx, deliveries: seq<Bytes>)
    requires 0 <= t.k < |d.h.sent| && Receives(d, t, rx, deliveries)
    requires Follows(d.h.sent, d.h.consumed, t)
    requires 0 <= Settled(d.rx, d.h.consumed) <= |d.h.sent|
    requires Subsequence(d.h.delivered, d.h.sent[..Settled(d.rx, d.h.consumed)])
    ensures Subsequence(d.h.delivered + deliveries, d.h.sent[..Settled(rx, t)])
  {
    var sent, before := d.h.sent, Settled(d.rx, d.h.consumed);
    if t.i == 0 || d.rx.state == WaitCF {
      SubsequenceGrow(d.h.delivered, sent, before, t.k);
      DeliverNext(d.h.delivered, sent, t.k);
    } else {
      SubsequenceGrow(d.h.delivered, sent, before, t.k + 1);
    }
    NothingMore(d.h.delivered);
  }

  lemma NothingMore(xs: seq<Bytes>)
    ensures xs + [] == xs
  {
  }

  lemma PopTagged(es: Env, er: Env, d: Dir, rx: Rx, deliveries: seq<Bytes>)
    requires DirInv(es, er, d) && d.queue != [] && d.queue[0].tag.Some?
    requires var t := d.queue[0].tag.value;
             0 <= t.k < |d.h.sent| && Receives(d, t, rx, deliveries)
    ensures var q := Pop(d);
            DirInv(es, er, q.(rx := rx, h := q.h.(delivered := q.h.delivered + deliveries)))
  {
    var t := d.queue[0].tag.value;
    PopPath(d);
    assert Follows(d.h.sent, Path(d)[0], Path(d)[1]);
    DeliveredGrows(d, t, rx, deliveries);
    var q := Pop(d);
    var d' := q.(rx := rx, h := q.h.(delivered := q.h.delivered + deliveries));
    assert Path(d') == Path(d)[1..] && LastSent(d') == LastSent(d);
    forall j | 0 < j < |Path(d')| ensures Follows(d.h.sent, Path(d')[j - 1], Path(d')[j]) {
      assert Follows(d.h.sent, Path(d)[j], Path(d)[j + 1]);
    }
  }
}
