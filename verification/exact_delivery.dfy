/** With automatic flow control, no expiry of the two long timers, room in the receive queues
    and payloads within the receiver's limit, everything that is started is delivered, exactly
    once and in order, with a known number of consecutive frames and flow controls. */
module ExactDelivery {
  import opened Basics
  import opened Arith
  import opened Framing
  import opened Pdu
  import opened Link
  import opened IsoTpSpec
  import opened SessionInvariant
  import opened Direction
  import opened Network
  import Can

  // ---------- blocks ----------

  /** The receiver's block counter after the `i`-th consecutive frame. */
  function Blocks(bs: nat, i: nat): nat { if bs > 0 then i % bs else i }

  lemma BlocksNext(bs: nat, i: nat)
    ensures bs > 0 ==> Blocks(bs, i) < bs
    ensures Blocks(bs, i + 1) == if bs > 0 && Blocks(bs, i) + 1 >= bs then 0 else Blocks(bs, i) + 1
  {
    if bs > 0 {
      var q, r := i / bs, i % bs;
      assert i == q * bs + r;
      if r + 1 == bs {
        assert i + 1 == (q + 1) * bs;
        DivModUnique(i + 1, bs, q + 1, 0);
      } else {
        DivModUnique(i + 1, bs, q, r + 1);
      }
    }
  }

  predicate Complete(sent: seq<Bytes>, t: Tag) {
    t.k < 0 || (t.k < |sent| && t.end == |sent[t.k]|)
  }

  /** Frames after which the receiver emits a flow control: a First Frame, and every
      consecutive frame that fills a block without completing the payload. */
  predicate Trigger(bs: nat, sent: seq<Bytes>, t: Tag) {
    0 <= t.k < |sent| && t.end < |sent[t.k]| && Blocks(bs, t.i) == 0
  }

  function Pending(bs: nat, sent: seq<Bytes>, tags: seq<Tag>): nat {
    if tags == [] then 0 else (if Trigger(bs, sent, tags[0]) then 1 else 0) + Pending(bs, sent, tags[1..])
  }

  lemma {:induction false} PendingAppend(bs: nat, sent: seq<Bytes>, tags: seq<Tag>, t: Tag)
    ensures Pending(bs, sent, tags + [t]) == Pending(bs, sent, tags) + if Trigger(bs, sent, t) then 1 else 0
  {
    if tags == [] {
      assert (tags + [t])[1..] == [];
    } else {
      PendingAppend(bs, sent, tags[1..], t);
      assert (tags + [t])[1..] == tags[1..] + [t];
    }
  }

  lemma {:induction false} PendingExtends(bs: nat, sent: seq<Bytes>, p: Bytes, tags: seq<Tag>)
    requires forall t :: t in tags ==> t.k < |sent|
    ensures Pending(bs, sent + [p], tags) == Pending(bs, sent, tags)
  {
    if tags != [] { PendingExtends(bs, sent, p, tags[1..]); }
  }

  // ---------- the exact invariant of one direction ----------

  /** No frame is missing: the next one continues the payload, or starts the next payload
      after a complete one. */
  predicate Tight(sent: seq<Bytes>, a: Tag, b: Tag) {
    || (b.k == a.k && b.i == a.i + 1 && b.start == a.end && !Complete(sent, a))
    || (b.k == a.k + 1 && b.i == 0 && Complete(sent, a))
  }

  predicate AllTight(sent: seq<Bytes>, path: seq<Tag>) {
    forall j :: 0 < j < |path| ==> Tight(sent, path[j - 1], path[j])
  }

  predicate TxExact(bs: nat, tx: Tx, sent: seq<Bytes>, last: Tag) {
    && last.k == |sent| - 1
    && (tx.state == Idle <==> Complete(sent, last))
    && (tx.state == Transmit ==> tx.remoteBlockSize == bs && tx.blockCounter == Blocks(bs, last.i))
    && (tx.state == WaitFC ==> Trigger(bs, sent, last))
  }

  predicate RxExact(bs: nat, rx: Rx, h: History) {
    && (rx.state == WaitCF <==> !Complete(h.sent, h.consumed))
    && (rx.state == WaitCF ==> rx.blockCounter == Blocks(bs, h.consumed.i))
    && 0 <= Settled(rx, h.consumed) <= |h.sent|
    && h.delivered == h.sent[..Settled(rx, h.consumed)]
  }

  /** `fcs` flow controls for this direction are in the opposite queue: the sender waits exactly
      while one trigger frame or one flow control is on its way. */
  predicate Exact(er: Env, d: Dir, fcs: nat) {
    var bs := er.cfg.blockSize;
    && AllTight(d.h.sent, Path(d))
    && TxExact(bs, d.tx, d.h.sent, LastSent(d))
    && RxExact(bs, d.rx, d.h)
    && Pending(bs, d.h.sent, Tags(d.queue)) + fcs == if d.tx.state == WaitFC then 1 else 0
  }

  lemma {:induction false} QueueTagsBelow(es: Env, er: Env, sent: seq<Bytes>, q: seq<Entry>)
    requires forall e :: e in q ==> EntryOk(es, er, sent, e)
    ensures forall t :: t in Tags(q) ==> 0 <= t.k < |sent|
  {
    if q != [] {
      assert q[0] in q;
      QueueTagsBelow(es, er, sent, q[1..]);
    }
  }

  lemma TightExtends(sent: seq<Bytes>, p: Bytes, path: seq<Tag>)
    requires AllTight(sent, path) && forall t :: t in path ==> t.k < |sent|
    ensures AllTight(sent + [p], path)
  {
  }

  lemma TightAppend(sent: seq<Bytes>, path: seq<Tag>, t: Tag)
    requires path != [] && AllTight(sent, path) && Tight(sent, path[|path| - 1], t)
    ensures AllTight(sent, path + [t])
  {
  }

  lemma PathBelow(es: Env, er: Env, d: Dir)
    requires DirInv(es, er, d)
    ensures forall t :: t in Path(d) ==> t.k < |d.h.sent|
  {
    ChainBelow(d.h.sent, Path(d));
  }

  /** The path and the triggers in the queue after a new payload's first frame. */
  lemma StartPath(es: Env, er: Env, d: Dir, p: Bytes, e: Entry, d': Dir)
    requires DirInv(es, er, d) && AllTight(d.h.sent, Path(d)) && Complete(d.h.sent, LastSent(d))
    requires LastSent(d).k == |d.h.sent| - 1
    requires e.tag.Some? && e.tag.value.k == |d.h.sent| && e.tag.value.i == 0
    requires d'.queue == d.queue + [e] && d'.h == d.h.(sent := d.h.sent + [p])
    ensures AllTight(d'.h.sent, Path(d')) && LastSent(d') == e.tag.value
    ensures Pending(er.cfg.blockSize, d'.h.sent, Tags(d'.queue))
            == Pending(er.cfg.blockSize, d.h.sent, Tags(d.queue))
               + if Trigger(er.cfg.blockSize, d'.h.sent, e.tag.value) then 1 else 0
  {
    var bs, sent := er.cfg.blockSize, d.h.sent + [p];
    PushPath(d, e);
    assert Path(d') == Path(Push(d, e)) == Path(d) + [e.tag.value];
    PathBelow(es, er, d);
    TightExtends(d.h.sent, p, Path(d));
    TightAppend(sent, Path(d), e.tag.value);
    QueueTagsBelow(es, er, d.h.sent, d.queue);
    PendingExtends(bs, d.h.sent, p, Tags(d.queue));
    TagsAppend(d.queue, e);
    PendingAppend(bs, sent, Tags(d.queue), e.tag.value);
  }

  /** A new payload changes nothing for the receiver yet. */
  lemma StartRx(bs: nat, rx: Rx, h: History, p: Bytes)
    requires RxExact(bs, rx, h) && h.consumed.k < |h.sent|
    ensures RxExact(bs, rx, h.(sent := h.sent + [p]))
  {
    var n := Settled(rx, h.consumed);
    assert (h.sent + [p])[..n] == h.sent[..n];
  }

  /** Starting a payload: a Single Frame is complete at once, a First Frame triggers. */
  lemma StartExact(es: Env, er: Env, d: Dir, fcs: nat, p: Bytes, frame: Can.Frame, tx: Tx)
    requires DirInv(es, er, d) && Exact(er, d, fcs) && d.tx.state == Idle && !EmptyClassicLost(es, p)
    requires tx.state == (if FitsSingleFrame(es, |p|) then Idle else WaitFC)
    requires FitsSingleFrame(es, |p|) || 0 < FirstChunkSize(es, |p|) < |p|
    ensures Exact(er, d.(tx := tx, queue := d.queue + [Entry(frame, StartTag(es, |d.h.sent|, p))],
                         h := d.h.(sent := d.h.sent + [p])), fcs)
  {
    var e := Entry(frame, StartTag(es, |d.h.sent|, p));
    var d' := d.(tx := tx, queue := d.queue + [e], h := d.h.(sent := d.h.sent + [p]));
    StartPath(es, er, d, p, e, d');
    PathBelow(es, er, d);
    assert d.h.consumed in Path(d);
    StartRx(er.cfg.blockSize, d.rx, d.h, p);
  }

  /** Payloads that are not delivered although they may be started. */
  predicate EmptyClassicLost(es: Env, p: Bytes) { Misread(es, p) || Unparseable(es, p) }

  /** The sender leaves Transmit for WaitFC exactly at a trigger frame. */
  lemma TransmitExact(es: Env, er: Env, d: Dir, fcs: nat, frame: Can.Frame, tx: Tx)
    requires DirInv(es, er, d) && Direct(es) && Exact(er, d, fcs) && d.tx.state == Transmit
    requires var next := NextTag(es, d.h.sent, LastSent(d));
             var bs := d.tx.remoteBlockSize;
             && (tx.state == Idle <==> next.end == |d.h.sent[next.k]|)
             && (tx.state != Idle ==>
                   && tx.state == (if bs > 0 && d.tx.blockCounter + 1 >= bs then WaitFC else Transmit)
                   && tx.remoteBlockSize == bs && tx.blockCounter == d.tx.blockCounter + 1)
    ensures Exact(er, Push(d, Entry(frame, Some(NextTag(es, d.h.sent, LastSent(d))))).(tx := tx), fcs)
    ensures tx.state == WaitFC <==> Trigger(er.cfg.blockSize, d.h.sent, NextTag(es, d.h.sent, LastSent(d)))
  {
    var bs, last := er.cfg.blockSize, LastSent(d);
    var e := Entry(frame, Some(NextTag(es, d.h.sent, last)));
    var d' := Push(d, e).(tx := tx);
    PushPath(d, e);
    assert Path(d') == Path(Push(d, e)) == Path(d) + [e.tag.value];
    TightAppend(d.h.sent, Path(d), e.tag.value);
    TagsAppend(d.queue, e);
    PendingAppend(bs, d.h.sent, Tags(d.queue), e.tag.value);
    BlocksNext(bs, last.i);
  }

  /** A flow control only arrives while the sender waits, and puts it at the start of a block. */
  lemma AcceptExact(es: Env, er: Env, d: Dir, fcs: nat, stMinUS: nat)
    requires DirInv(es, er, d) && Exact(er, d, fcs) && fcs > 0
    ensures var o := HandleFlowControl(es, d.tx, CONTINUE_TO_SEND, er.cfg.blockSize, stMinUS);
            d.tx.state == WaitFC && fcs == 1 && Exact(er, d.(tx := o.tx), fcs - 1)
  {
  }

  /** What the receiver does with the next data frame when it has room and the size fits. */
  predicate TakesExactly(er: Env, d: Dir, t: Tag, o: RxOut)
    requires 0 <= t.k < |d.h.sent|
  {
    var complete := t.end == |d.h.sent[t.k]|;
    && (o.rx.state == Idle <==> complete)
    && o.deliveries == (if complete then [d.h.sent[t.k]] else [])
    && (!complete ==> o.rx.state == WaitCF && o.rx.blockCounter == Blocks(er.cfg.blockSize, t.i))
    && o.frames == (if Trigger(er.cfg.blockSize, d.h.sent, t) then FlowControlMsgs(er) else [])
    && o.errors == []
  }

  lemma SingleTakes(es: Env, er: Env, d: Dir, fcs: nat, t: Tag, data: Bytes)
    requires DirInv(es, er, d) && Exact(er, d, fcs) && Tight(d.h.sent, d.h.consumed, t)
    requires TagOk(es, d.h.sent, t) && PduMatches(es, d.h.sent[t.k], t, SingleFrame(data))
    ensures TakesExactly(er, d, t, HandleSingleFrame(d.rx, data, true))
  {
  }

  lemma FirstTakes(es: Env, er: Env, d: Dir, fcs: nat, t: Tag, total: nat, data: Bytes)
    requires DirInv(es, er, d) && Exact(er, d, fcs) && Tight(d.h.sent, d.h.consumed, t)
    requires TagOk(es, d.h.sent, t) && PduMatches(es, d.h.sent[t.k], t, FirstFrame(total, data))
    requires t.end < |d.h.sent[t.k]| <= er.cfg.maxPayloadSize
    ensures TakesExactly(er, d, t, HandleFirstFrame(er, d.rx, total, data))
  {
  }

  lemma ConsecutiveTakes(es: Env, er: Env, d: Dir, fcs: nat, t: Tag, sn: nat, data: Bytes)
    requires DirInv(es, er, d) && Exact(er, d, fcs) && Tight(d.h.sent, d.h.consumed, t)
    requires RxInv(er, d.rx)
    requires TagOk(es, d.h.sent, t) && PduMatches(es, d.h.sent[t.k], t, ConsecutiveFrame(sn, data))
    ensures TakesExactly(er, d, t, HandleConsecutiveFrame(er, d.rx, sn, data, true))
  {
    var p := d.h.sent[t.k];
    var take := Min(|data|, |p| - |d.rx.buffer|);
    assert d.rx.state == WaitCF && t.start == |d.rx.buffer|;
    assert take == t.end - t.start;
    assert p[..t.start] + p[t.start..t.end] == p[..t.end];
    assert d.rx.buffer + data[..take] == p[..t.end];
    assert t.end == |p| ==> p[..t.end] == p;
    BlocksNext(er.cfg.blockSize, d.h.consumed.i);
  }

  lemma TightTail(sent: seq<Bytes>, path: seq<Tag>)
    requires path != [] && AllTight(sent, path)
    ensures AllTight(sent, path[1..])
  {
  }

  lemma PopRxExact(bs: nat, rx: Rx, h: History, t: Tag, rx': Rx, deliveries: seq<Bytes>)
    requires RxExact(bs, rx, h) && Tight(h.sent, h.consumed, t)
    requires 0 <= t.k < |h.sent|
    requires var complete := t.end == |h.sent[t.k]|;
             && (rx'.state == Idle <==> complete)
             && deliveries == (if complete then [h.sent[t.k]] else [])
             && (!complete ==> rx'.state == WaitCF && rx'.blockCounter == Blocks(bs, t.i))
    ensures RxExact(bs, rx', h.(consumed := t, delivered := h.delivered + deliveries))
  {
  }

  lemma PopExact(es: Env, er: Env, d: Dir, fcs: nat, o: RxOut)
    requires DirInv(es, er, d) && Exact(er, d, fcs) && d.queue != [] && d.queue[0].tag.Some?
    requires var t := d.queue[0].tag.value;
             0 <= t.k < |d.h.sent| && TakesExactly(er, d, t, o)
    ensures var q := Pop(d);
            var t := d.queue[0].tag.value;
            Exact(er, q.(rx := o.rx, h := q.h.(delivered := q.h.delivered + o.deliveries)),
                  fcs + if Trigger(er.cfg.blockSize, d.h.sent, t) then 1 else 0)
  {
    var t := d.queue[0].tag.value;
    var q := Pop(d);
    var d' := q.(rx := o.rx, h := q.h.(delivered := q.h.delivered + o.deliveries));
    PopPath(d);
    assert Tight(d.h.sent, Path(d)[0], Path(d)[1]);
    PopRxExact(er.cfg.blockSize, d.rx, d.h, t, o.rx, o.deliveries);
    TightTail(d.h.sent, Path(d));
    assert Path(d') == Path(d)[1..] && LastSent(d') == LastSent(d);
  }
}
