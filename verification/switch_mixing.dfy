/** The switch back harms even with one consecutive frame left: a peer that still waits for the rest of
    an abandoned payload completes it with the end of another. */
module SwitchMixing {
  import opened Basics
  import opened Framing
  import opened Pdu
  import opened Link
  import opened IsoTpSpec
  import opened SessionInvariant
  import opened Direction
  import opened Network
  import opened AddressSwitch
  import Can

  /** The payload is sent as a First Frame and one consecutive frame. */
  predicate TwoFrames(ea: Env, eb: Env, p: Bytes) {
    Fragmented(ea, eb, p) && |p| <= FirstChunkSize(ea, |p|) + ChunkSize(ea)
  }

  /** One more move. */
  lemma PlayNext(ea: Env, eb: Env, c: Conn, moves: seq<Move>, d: Conn, side: Side, act: Action)
    requires Play(ea, eb, c, moves) == Some(d) && CanStepConn(ea, eb, d, side, act)
    ensures Play(ea, eb, c, moves + [Move(side, act)]) == Some(StepConn(ea, eb, d, side, act))
  {
    PlayOne(ea, eb, d, side, act);
    PlayJoin(ea, eb, c, moves, d, [Move(side, act)]);
  }

  // ---------- the first payload is abandoned ----------

  /** The peer waits with the first chunk of `p`, the sender is idle, and nothing is on the bus. */
  predicate Stranded(ea: Env, eb: Env, c: Conn, p: Bytes) {
    && Linked(ea, eb) && ConnInv(ea, eb, c) && c.addrA == None && c.net.ab == [] && c.net.ba == []
    && c.net.a.tx.state == Idle && HoldsFirst(ea, c.net.b.rx, p)
    && c.net.hab.sent == [p] && c.net.hab.delivered == []
  }

  /** The sender gives up waiting for flow control. */
  lemma GiveUp(ea: Env, eb: Env, c: Conn)
    requires ConnInv(ea, eb, c) && c.net.a.tx.state == WaitFC
    ensures CanStepConn(ea, eb, c, A, FCTimer)
    ensures var d := StepConn(ea, eb, c, A, FCTimer);
            d == c.(net := c.net.(a := d.net.a, errors := d.net.errors)) && d.net.a.tx.state == Idle
  {
  }

  /** An idle sender ignores flow control. */
  lemma TooLate(ea: Env, eb: Env, c: Conn, bs: byte, st: nat)
    requires ConnInv(ea, eb, c) && |c.net.ba| == 1 && c.net.a.tx.state == Idle
    requires Decoded(ea, c.net.ba[0].frame) == Some(FlowControlFrame(CONTINUE_TO_SEND, bs, st))
    ensures CanStepConn(ea, eb, c, A, Take(true))
    ensures var d := StepConn(ea, eb, c, A, Take(true));
            d == c.(net := c.net.(ba := [], hba := d.net.hba)) && d.net.a == c.net.a
  {
    HeardAnyway(ea, c.addrA, c.net.ba[0].frame);
    assert c.net.errors + [] == c.net.errors;
  }

  /** Start, the peer hears it, and the sender gives up. */
  lemma Abandon(ea: Env, eb: Env, p: Bytes) returns (moves: seq<Move>, c: Conn)
    requires Linked(ea, eb) && Fragmented(ea, eb, p)
    ensures Play(ea, eb, InitialConn, moves) == Some(c) && (forall m :: m in moves ==> !m.act.Switch?)
    ensures ConnInv(ea, eb, c) && c.addrA == None && c.net.ab == [] && c.net.a.tx.state == Idle
    ensures HoldsFirst(ea, c.net.b.rx, p) && c.net.hab.sent == [p] && c.net.hab.delivered == []
    ensures if eb.cfg.manualFlowControl then c.net.ba == []
            else |c.net.ba| == 1
                 && Decoded(ea, c.net.ba[0].frame)
                    == Some(FlowControlFrame(CONTINUE_TO_SEND, eb.cfg.blockSize, eb.cfg.stMin * 1000))
  {
    var c1, c2 := FirstHeard(ea, eb, p);
    GiveUp(ea, eb, c2);
    ConnStepA(ea, eb, c2, FCTimer);
    c := StepConn(ea, eb, c2, A, FCTimer);
    PlayThree(ea, eb, InitialConn, Move(A, Start(p)), Move(B, Take(true)), Move(A, FCTimer), c1, c2);
    moves := [Move(A, Start(p)), Move(B, Take(true)), Move(A, FCTimer)];
  }

  lemma Strand(ea: Env, eb: Env, p: Bytes) returns (moves: seq<Move>, c: Conn)
    requires Linked(ea, eb) && Fragmented(ea, eb, p)
    ensures Play(ea, eb, InitialConn, moves) == Some(c) && (forall m :: m in moves ==> !m.act.Switch?)
    ensures Stranded(ea, eb, c, p)
  {
    moves, c := Abandon(ea, eb, p);
    if !eb.cfg.manualFlowControl {
      var c0 := c;
      TooLate(ea, eb, c0, eb.cfg.blockSize, eb.cfg.stMin * 1000);
      ConnStepA(ea, eb, c0, Take(true));
      PlayNext(ea, eb, InitialConn, moves, c0, A, Take(true));
      moves, c := moves + [Move(A, Take(true))], StepConn(ea, eb, c0, A, Take(true));
    }
  }

  // ---------- the second payload goes elsewhere ----------

  /** A First Frame that goes elsewhere, and the sender it leaves. */
  lemma FirstElsewhere(env: Env, er: Env, tx: Tx, q: Bytes) returns (e: Entry, o: TxOut)
    requires Matched(env, er) && !Direct(env) && TxInv(env, tx) && tx.state == Idle
    requires !FitsSingleFrame(env, |q|) && |q| < TWO32 && 0 < FirstChunkSize(env, |q|) < |q|
    ensures o == InitiateTx(env, tx, q) && |o.frames| == 1 && o.errors == []
    ensures ToCANFrame(o.frames[0], env.brs).Ok?
    ensures e == Entry(Carry(ToCANFrame(o.frames[0], env.brs).value), None) && Received(er, e.frame) == None
    ensures o.tx.state == WaitFC && o.tx.buffer == q[FirstChunkSize(env, |q|)..] && o.tx.seqNum == 1
  {
    o := InitiateTx(env, tx, q);
    InitiateTxKeeps(env, tx, q);
    DivertedIsForeign(env, er, CreateFirstFrame(q[..FirstChunkSize(env, |q|)], |q|, FrameDataLength(env.fd)).value);
    e := Entry(Carry(ToCANFrame(o.frames[0], env.brs).value), None);
  }

  /** The second payload's First Frame goes to the other address. */
  lemma StartAstray(ea: Env, eb: Env, c: Conn, q: Bytes) returns (e: Entry)
    requires ConnInv(ea, eb, c) && Linked(ea, eb) && Fragmented(ea, eb, q) && 0 < FirstChunkSize(ea, |q|) < |q|
    requires !Direct(At(ea, c.addrA)) && c.net.a.tx.state == Idle && c.net.ab == []
    ensures CanStepConn(ea, eb, c, A, Start(q)) && e.tag == None && Received(eb, e.frame) == None
    ensures var d := StepConn(ea, eb, c, A, Start(q));
            && d == c.(net := c.net.(a := d.net.a, ab := [e], hab := c.net.hab.(sent := c.net.hab.sent + [q])))
            && d.net.a.tx.state == WaitFC && d.net.a.tx.buffer == q[FirstChunkSize(ea, |q|)..]
            && d.net.a.tx.seqNum == 1
  {
    var env := At(ea, c.addrA);
    var o;
    e, o := FirstElsewhere(env, At(eb, c.addrB), c.net.a.tx, q);
    assert c.net.errors + o.errors == c.net.errors;
  }

  /** Diverted in the middle of `q`, one frame from its end, while the peer still waits for more of `p`. */
  predicate Crossed(ea: Env, eb: Env, c: Conn, p: Bytes, q: Bytes, x: nat) {
    && Linked(ea, eb) && ConnInv(ea, eb, c) && Diverted(c, x) && c.net.ab == [] && HoldsFirst(ea, c.net.b.rx, p)
    && FirstChunkSize(ea, |q|) <= |q| && c.net.a.tx.buffer == q[FirstChunkSize(ea, |q|)..]
    && |c.net.a.tx.buffer| <= ChunkSize(ea) && c.net.a.tx.seqNum == 1
    && c.net.hab.sent == [p, q] && c.net.hab.delivered == []
  }

  /** The sender has started `q` away from the peer. */
  predicate StartedAway(ea: Env, eb: Env, c: Conn, d: Conn, p: Bytes, q: Bytes, x: nat) {
    && Linked(ea, eb) && ConnInv(ea, eb, d) && d.addrA == Some(x) && d.net.ba == [] && d.net.b == c.net.b
    && FirstChunkSize(ea, |q|) <= |q|
    && d.net.a.tx.state == WaitFC && d.net.a.tx.buffer == q[FirstChunkSize(ea, |q|)..] && d.net.a.tx.seqNum == 1
    && d.net.hab.sent == [p, q] && d.net.hab.delivered == []
  }

  lemma StartAway(ea: Env, eb: Env, c: Conn, p: Bytes, q: Bytes, x: nat)
    returns (moves: seq<Move>, d: Conn, e: Entry)
    requires Stranded(ea, eb, c, p) && OtherAddress(ea, x) && TwoFrames(ea, eb, q) && |p| == |q|
    ensures Play(ea, eb, c, moves) == Some(d) && OnlyAway(moves, x)
    ensures StartedAway(ea, eb, c, d, p, q, x)
    ensures d.net.ab == [e] && e.tag == None && Received(eb, e.frame) == None
  {
    AwayStep(ea, eb, c, x);
    var c1 := c.(addrA := Some(x));
    e := StartAstray(ea, eb, c1, q);
    ConnStepA(ea, eb, c1, Start(q));
    d := StepConn(ea, eb, c1, A, Start(q));
    PlayTwo(ea, eb, c, Move(A, Switch(Some(x))), Move(A, Start(q)), c1);
    moves := [Move(A, Switch(Some(x))), Move(A, Start(q))];
    assert [p] + [q] == [p, q];
  }

  lemma LeadAway(ea: Env, eb: Env, c: Conn, p: Bytes, q: Bytes, x: nat) returns (moves: seq<Move>, d: Conn)
    requires Stranded(ea, eb, c, p) && OtherAddress(ea, x) && TwoFrames(ea, eb, q) && |p| == |q|
    ensures Play(ea, eb, c, moves) == Some(d) && OnlyAway(moves, x)
    ensures StartedAway(ea, eb, c, d, p, q, x) && d.net.ab == []
  {
    var start, c2, e := StartAway(ea, eb, c, p, q, x);
    Ignored(ea, eb, c2, e);
    d := c2.(net := c2.net.(ab := []));
    PlayNext(ea, eb, c, start, c2, B, Take(true));
    moves := start + [Move(B, Take(true))];
  }

  lemma Cross(ea: Env, eb: Env, c: Conn, p: Bytes, q: Bytes, x: nat) returns (moves: seq<Move>, d: Conn)
    requires Stranded(ea, eb, c, p) && OtherAddress(ea, x) && TwoFrames(ea, eb, q) && |p| == |q|
    ensures Play(ea, eb, c, moves) == Some(d) && OnlyAway(moves, x) && Crossed(ea, eb, d, p, q, x)
  {
    var lead, c1 := LeadAway(ea, eb, c, p, q, x);
    var resume;
    resume, d := MakeTransmit(ea, eb, c1);
    PlayJoin(ea, eb, c, lead, c1, resume);
    AwayAppend(lead, resume, x);
    moves := lead + resume;
  }

  // ---------- and the last frame comes back ----------

  /** The peer completes what it holds. */
  lemma Completed(ea: Env, eb: Env, c: Conn, e: Entry, p: Bytes, q: Bytes)
    requires Inv(eb, c.net.b) && HoldsFirst(ea, c.net.b.rx, p) && |p| == |q| && c.net.ab == [e]
    requires var pdu := Decoded(eb, e.frame);
             && pdu.Some? && pdu.value.ConsecutiveFrame? && pdu.value.sequenceNumber == 1
             && q[FirstChunkSize(ea, |p|)..] <= pdu.value.data
    ensures CanStepConn(ea, eb, c, B, Take(true))
    ensures var n := FirstChunkSize(ea, |p|);
            var d := StepConn(ea, eb, c, B, Take(true));
            && d.net.hab.sent == c.net.hab.sent
            && d.net.hab.delivered == c.net.hab.delivered + [p[..n] + q[n..]]
  {
    HeardAnyway(eb, c.addrB, e.frame);
    var data := Decoded(eb, e.frame).value.data;
    assert data[..|p| - FirstChunkSize(ea, |p|)] == q[FirstChunkSize(ea, |p|)..];
  }

  lemma BackMixes(ea: Env, eb: Env, c: Conn, p: Bytes, q: Bytes, x: nat) returns (d: Conn)
    requires Crossed(ea, eb, c, p, q, x) && |p| == |q|
    ensures Play(ea, eb, c, Back()) == Some(d)
    ensures var n := FirstChunkSize(ea, |p|);
            n <= |p| && d.net.hab.sent == [p, q] && d.net.hab.delivered == [p[..n] + q[n..]]
  {
    var c1 := c.(addrA := None);
    assert StepConn(ea, eb, c, A, Switch(None)) == c1;
    var e := BackStep(ea, eb, c1);
    var rest := c1.net.a.tx.buffer;
    assert rest[..|rest|] == rest;
    var c2 := StepConn(ea, eb, c1, A, STminTimer);
    Completed(ea, eb, c2, e, p, q);
    d := StepConn(ea, eb, c2, B, Take(true));
    PlayThree(ea, eb, c, Move(A, Switch(None)), Move(A, STminTimer), Move(B, Take(true)), c1, c2);
  }

  lemma NotSent(p: Bytes, q: Bytes, mixed: Bytes)
    requires mixed != p && mixed != q
    ensures !Subsequence([mixed], [p, q])
  {
    assert [p][..0] == [] && [p, q][..1] == [p];
    assert !Subsequence([mixed], [p]);
  }

  lemma Neither(p: Bytes, q: Bytes, n: nat)
    requires |p| == |q| && n <= |p| && p[..n] != q[..n] && p[n..] != q[n..]
    ensures p[..n] + q[n..] != p && p[..n] + q[n..] != q
  {
    var mixed := p[..n] + q[n..];
    assert mixed[..n] == p[..n] && mixed[n..] == q[n..];
  }

  /** For all linked ends, every two payloads of the same length that take two frames each and differ in
      both, and every other address: a run with a single unsafe step, the switch back with one
      consecutive frame left, in which the peer delivers the beginning of one with the end of the
      other, which nobody started. */
  lemma OneFrameLeftMixes(ea: Env, eb: Env, p: Bytes, q: Bytes, x: nat)
    returns (cs: seq<Conn>, sides: seq<Side>, acts: seq<Action>, k: nat)
    requires Linked(ea, eb) && OtherAddress(ea, x)
    requires TwoFrames(ea, eb, p) && TwoFrames(ea, eb, q) && |p| == |q|
    ensures ConnRun(ea, eb, cs, sides, acts) && OnlyBackUnsafe(ea, eb, cs, sides, acts, k)
    ensures 0 < |cs[k].net.a.tx.buffer| <= ChunkSize(ea)
    ensures var n, h := FirstChunkSize(ea, |p|), cs[|acts|].net.hab;
            && n <= |p| && h.sent == [p, q] && h.delivered == [p[..n] + q[n..]]
            && (p[..n] != q[..n] && p[n..] != q[n..] ==> !Subsequence(h.delivered, h.sent))
  {
    var strand, c := Strand(ea, eb, p);
    var cross, d := Cross(ea, eb, c, p, q, x);
    PlayJoin(ea, eb, InitialConn, strand, c, cross);
    AwayAppend(strand, cross, x);
    var mixed := BackMixes(ea, eb, d, p, q, x);
    cs, sides, acts, k := RunBack(ea, eb, strand + cross, d, mixed, x);
    var n := FirstChunkSize(ea, |p|);
    if p[..n] != q[..n] && p[n..] != q[n..] {
      Neither(p, q, n);
      NotSent(p, q, p[..n] + q[n..]);
    }
  }
}
