/** Why a transfer must not be turned back to the peer: switching the transmit address away and back in
    the middle of a transfer makes the peer report a sequence mismatch, and the switch back alone is
    to blame. */
module AddressSwitch {
  import opened Basics
  import opened Framing
  import opened Pdu
  import opened Link
  import opened IsoTpSpec
  import opened SessionInvariant
  import opened Direction
  import opened Network
  import Can

  // ---------- playing a list of moves ----------

  datatype Move = Move(side: Side, act: Action)

  /** The connection after the moves, if each was possible when its turn came. */
  function Play(ea: Env, eb: Env, c: Conn, moves: seq<Move>): Option<Conn>
    decreases |moves|
  {
    if moves == [] then Some(c)
    else if CanStepConn(ea, eb, c, moves[0].side, moves[0].act) then
      Play(ea, eb, StepConn(ea, eb, c, moves[0].side, moves[0].act), moves[1..])
    else None
  }

  lemma {:induction false} PlayOn(ea: Env, eb: Env, c: Conn, first: seq<Move>, second: seq<Move>)
    requires Play(ea, eb, c, first).Some?
    ensures Play(ea, eb, c, first + second) == Play(ea, eb, Play(ea, eb, c, first).value, second)
    decreases |first|
  {
    if first == [] {
      assert first + second == second;
    } else {
      PlayOn(ea, eb, StepConn(ea, eb, c, first[0].side, first[0].act), first[1..], second);
      assert (first + second)[1..] == first[1..] + second;
    }
  }

  /** One move. */
  lemma PlayOne(ea: Env, eb: Env, c: Conn, side: Side, act: Action)
    requires CanStepConn(ea, eb, c, side, act)
    ensures Play(ea, eb, c, [Move(side, act)]) == Some(StepConn(ea, eb, c, side, act))
  {
    assert [Move(side, act)][1..] == [];
  }

  /** Whatever can be played is a stretch of the connection. */
  lemma {:induction false} PlayIsStretch(ea: Env, eb: Env, c: Conn, moves: seq<Move>)
    returns (cs: seq<Conn>, sides: seq<Side>, acts: seq<Action>)
    requires Play(ea, eb, c, moves).Some?
    ensures Stretch(ea, eb, cs, sides, acts) && Moves(moves, sides, acts)
    ensures cs[0] == c && cs[|acts|] == Play(ea, eb, c, moves).value
    decreases |moves|
  {
    if moves == [] {
      cs, sides, acts := [c], [], [];
    } else {
      var m := moves[0];
      cs, sides, acts := PlayIsStretch(ea, eb, StepConn(ea, eb, c, m.side, m.act), moves[1..]);
      Prepend(ea, eb, c, m.side, m.act, cs, sides, acts);
      cs, sides, acts := [c] + cs, [m.side] + sides, [m.act] + acts;
    }
  }

  /** The same, with the connection after the first part named. */
  lemma {:induction false} PlayPartsStretch(ea: Env, eb: Env, c: Conn, first: seq<Move>, d: Conn, second: seq<Move>)
    returns (cs: seq<Conn>, sides: seq<Side>, acts: seq<Action>)
    requires Play(ea, eb, c, first) == Some(d) && Play(ea, eb, d, second).Some?
    ensures Stretch(ea, eb, cs, sides, acts) && Moves(first + second, sides, acts)
    ensures cs[0] == c && cs[|first|] == d && cs[|acts|] == Play(ea, eb, d, second).value
    decreases |first|
  {
    if first == [] {
      cs, sides, acts := PlayIsStretch(ea, eb, d, second);
      assert first + second == second;
    } else {
      var m := first[0];
      cs, sides, acts := PlayPartsStretch(ea, eb, StepConn(ea, eb, c, m.side, m.act), first[1..], d, second);
      Prepend(ea, eb, c, m.side, m.act, cs, sides, acts);
      cs, sides, acts := [c] + cs, [m.side] + sides, [m.act] + acts;
      assert (first + second)[1..] == first[1..] + second;
    }
  }

  /** The run makes these moves. */
  predicate Moves(moves: seq<Move>, sides: seq<Side>, acts: seq<Action>) {
    |moves| == |sides| == |acts| && forall i :: 0 <= i < |acts| ==> Move(sides[i], acts[i]) == moves[i]
  }

  lemma Prepend(ea: Env, eb: Env, c: Conn, side: Side, act: Action, cs: seq<Conn>, sides: seq<Side>, acts: seq<Action>)
    requires Stretch(ea, eb, cs, sides, acts) && StepsTo(ea, eb, c, side, act, cs[0])
    ensures Stretch(ea, eb, [c] + cs, [side] + sides, [act] + acts)
  {
    var cs', sides', acts' := [c] + cs, [side] + sides, [act] + acts;
    forall i | 0 <= i < |acts'| ensures StepsTo(ea, eb, cs'[i], sides'[i], acts'[i], cs'[i + 1]) {
      if i > 0 { assert StepsTo(ea, eb, cs[i - 1], sides[i - 1], acts[i - 1], cs[i]); }
    }
  }

  // ---------- single moves ----------

  /** A transfer is active and the peer reassembles; everything on the bus has been heard. */
  predicate Waiting(c: Conn) {
    && c.net.ab == [] && c.net.ba == []
    && c.net.a.tx.state in {WaitFC, Transmit} && c.net.b.rx.state == WaitCF
  }

  /** And at least two consecutive frames are still to come, the next one the one the peer expects. */
  predicate InTransfer(ea: Env, eb: Env, c: Conn) {
    && Linked(ea, eb) && ConnInv(ea, eb, c) && c.addrA == None
    && Waiting(c) && |c.net.a.tx.buffer| > ChunkSize(ea)
  }

  predicate OtherAddress(ea: Env, x: nat) { x <= 0x7FF && x != ea.txID }

  lemma PeerExpectsNext(ea: Env, eb: Env, c: Conn)
    requires InTransfer(ea, eb, c)
    ensures c.net.b.rx.seqNum == c.net.a.tx.seqNum <= 15
  {
    assert Path(AB(c.net)) == [c.net.hab.consumed];
  }

  /** A flow control without block limit that end A hears. */
  predicate GoAhead(ea: Env, f: Can.Frame) { Decoded(ea, f) == Some(FlowControlFrame(CONTINUE_TO_SEND, 0, 0)) }

  lemma SomeGoAhead(ea: Env, eb: Env) returns (f: Can.Frame)
    requires Matched(eb, ea)
    ensures GoAhead(ea, f)
  {
    var unlimited := eb.(cfg := eb.cfg.(blockSize := 0, stMin := 0, manualFlowControl := false));
    FlowControlArrives(unlimited, ea);
    f := Carry(ToCANFrame(FlowControlMsgs(unlimited)[0], unlimited.brs).value);
  }

  lemma HeardAnyway(ea: Env, addr: Option<nat>, f: Can.Frame)
    ensures Decoded(At(ea, addr), f) == Decoded(ea, f)
  {
  }

  /** End B puts a flow control on the empty bus. */
  lemma InjectStep(ea: Env, eb: Env, c: Conn, f: Can.Frame)
    requires ConnInv(ea, eb, c) && GoAhead(ea, f) && c.net.ba == []
    ensures CanStepConn(ea, eb, c, B, Inject(f))
    ensures StepConn(ea, eb, c, B, Inject(f)) == c.(net := c.net.(ba := [Entry(f, None)]))
  {
    HeardAnyway(ea, c.addrA, f);
    assert EntryOk(At(eb, c.addrB), At(ea, c.addrA), c.net.hba.sent, Entry(f, None));
  }

  /** The waiting sender goes on. */
  lemma GoOn(env: Env, s: Session, f: Can.Frame)
    requires Inv(env, s) && GoAhead(env, f) && s.tx.state == WaitFC
    ensures FromCANFrame(f).Some?
    ensures var o := Step(env, s, Incoming(FromCANFrame(f).value, true));
            && o.s.rx == s.rx && o.s.tx.state == Transmit && o.s.tx.buffer == s.tx.buffer
            && o.s.tx.seqNum == s.tx.seqNum && o.frames == [] && o.deliveries == [] && o.errors == []
  {
  }

  /** After a resumption only the sender's state differs. */
  predicate Resumed(c: Conn, d: Conn) {
    && d.addrA == c.addrA && d.addrB == c.addrB && d.net.b == c.net.b && d.net.ab == c.net.ab && d.net.ba == []
    && d.net.hab == c.net.hab && d.net.a.tx.state == Transmit
    && d.net.a.tx.buffer == c.net.a.tx.buffer && d.net.a.tx.seqNum == c.net.a.tx.seqNum
  }

  lemma TakeFlowStep(ea: Env, eb: Env, c: Conn, f: Can.Frame)
    requires ConnInv(ea, eb, c) && GoAhead(ea, f) && c.net.a.tx.state == WaitFC && c.net.ba == [Entry(f, None)]
    ensures CanStepConn(ea, eb, c, A, Take(true))
    ensures Resumed(c, StepConn(ea, eb, c, A, Take(true)))
  {
    HeardAnyway(ea, c.addrA, f);
    GoOn(At(ea, c.addrA), c.net.a, f);
  }

  /** The flow control is injected and taken: the sender transmits. */
  lemma ResumeStep(ea: Env, eb: Env, c: Conn, f: Can.Frame)
    requires ConnInv(ea, eb, c) && GoAhead(ea, f) && c.net.a.tx.state == WaitFC && c.net.ba == []
    ensures var d := Play(ea, eb, c, [Move(B, Inject(f)), Move(A, Take(true))]);
            d.Some? && Resumed(c, d.value) && ConnInv(ea, eb, d.value)
  {
    InjectStep(ea, eb, c, f);
    StepKeeps(ea, eb, c, B, Inject(f));
    var mid := StepConn(ea, eb, c, B, Inject(f));
    TakeFlowStep(ea, eb, mid, f);
    StepKeeps(ea, eb, mid, A, Take(true));
    PlayOne(ea, eb, c, B, Inject(f));
    PlayOne(ea, eb, mid, A, Take(true));
    PlayOn(ea, eb, c, [Move(B, Inject(f))], [Move(A, Take(true))]);
    assert [Move(B, Inject(f))] + [Move(A, Take(true))] == [Move(B, Inject(f)), Move(A, Take(true))];
  }

  /** The moves that make a waiting sender transmit; none when it transmits already. */
  lemma MakeTransmit(ea: Env, eb: Env, c: Conn) returns (moves: seq<Move>, d: Conn)
    requires Linked(ea, eb) && ConnInv(ea, eb, c) && c.net.a.tx.state in {WaitFC, Transmit} && c.net.ba == []
    ensures Play(ea, eb, c, moves) == Some(d) && Resumed(c, d) && ConnInv(ea, eb, d)
    ensures forall m :: m in moves ==> !m.act.Switch?
  {
    if c.net.a.tx.state == Transmit {
      moves, d := [], c;
    } else {
      var f := SomeGoAhead(ea, eb);
      ResumeStep(ea, eb, c, f);
      moves := [Move(B, Inject(f)), Move(A, Take(true))];
      d := Play(ea, eb, c, moves).value;
    }
  }

  lemma ResumedWaits(c: Conn, d: Conn)
    requires Waiting(c) && Resumed(c, d)
    ensures Waiting(d) && |d.net.a.tx.buffer| == |c.net.a.tx.buffer|
    ensures d.net.b.rx.seqNum == c.net.b.rx.seqNum && d.net.a.tx.seqNum == c.net.a.tx.seqNum
  {
  }

  // ---------- away ----------

  /** The address is switched in the middle of the transfer. */
  lemma AwayStep(ea: Env, eb: Env, c: Conn, x: nat)
    requires Linked(ea, eb) && ConnInv(ea, eb, c) && OtherAddress(ea, x)
    ensures CanStepConn(ea, eb, c, A, Switch(Some(x)))
    ensures StepConn(ea, eb, c, A, Switch(Some(x))) == c.(addrA := Some(x))
    ensures ConnInv(ea, eb, c.(addrA := Some(x)))
  {
    NetAddress(At(ea, c.addrA), At(eb, c.addrB), At(ea, Some(x)), c.net);
  }

  /** One consecutive frame goes astray, and the peer does not hear it. */
  lemma AstrayStep(ea: Env, eb: Env, c: Conn, next: nat) returns (e: Entry)
    requires next == (c.net.a.tx.seqNum + 1) % 16
    requires ConnInv(ea, eb, c) && !Direct(At(ea, c.addrA)) && c.net.ab == []
    requires c.net.a.tx.state == Transmit && |c.net.a.tx.buffer| > ChunkSize(ea)
    ensures CanStepConn(ea, eb, c, A, STminTimer) && e.tag == None && Received(eb, e.frame) == None
    ensures var d := StepConn(ea, eb, c, A, STminTimer);
            && d == c.(net := c.net.(a := d.net.a, ab := [e]))
            && d.net.a.tx.state in {Transmit, WaitFC} && d.net.a.tx.seqNum == next
  {
    var env := At(ea, c.addrA);
    var o := STminTimeout(env, c.net.a.tx);
    TransmitShape(env, c.net.a.tx);
    STminTimeoutKeeps(env, c.net.a.tx);
    var data := CreateConsecutiveFrame(c.net.a.tx.buffer[..ChunkSize(ea)], c.net.a.tx.seqNum).value;
    DivertedIsForeign(env, At(eb, c.addrB), data);
    e := Entry(Carry(ToCANFrame(o.frames[0], env.brs).value), None);
    assert c.net.errors + o.errors == c.net.errors;
  }

  /** A frame for somebody else changes nothing. */
  lemma IgnoreStep(ea: Env, eb: Env, c: Conn, e: Entry)
    requires ConnInv(ea, eb, c) && c.net.ab == [e] && e.tag == None && Received(eb, e.frame) == None
    ensures CanStepConn(ea, eb, c, B, Take(true))
    ensures StepConn(ea, eb, c, B, Take(true)) == c.(net := c.net.(ab := []))
  {
    assert c.net.errors + [] == c.net.errors && c.net.hab.delivered + [] == c.net.hab.delivered;
  }

  lemma Ignored(ea: Env, eb: Env, c: Conn, e: Entry)
    requires ConnInv(ea, eb, c) && c.net.ab == [e] && e.tag == None && Received(eb, e.frame) == None
    ensures CanStepConn(ea, eb, c, B, Take(true))
    ensures StepConn(ea, eb, c, B, Take(true)) == c.(net := c.net.(ab := []))
    ensures ConnInv(ea, eb, c.(net := c.net.(ab := [])))
  {
    IgnoreStep(ea, eb, c, e);
    StepKeeps(ea, eb, c, B, Take(true));
  }

  // ---------- and back ----------

  /** The next consecutive frame reaches the peer again. */
  lemma BackStep(ea: Env, eb: Env, c: Conn) returns (e: Entry)
    requires Linked(ea, eb) && Inv(ea, c.net.a) && c.addrA == None && c.net.ab == []
    requires c.net.a.tx.state == Transmit
    ensures CanStepConn(ea, eb, c, A, STminTimer)
    ensures var pdu := Decoded(eb, e.frame);
            && pdu.Some? && pdu.value.ConsecutiveFrame? && pdu.value.sequenceNumber == c.net.a.tx.seqNum
            && c.net.a.tx.buffer[..Min(ChunkSize(ea), |c.net.a.tx.buffer|)] <= pdu.value.data
    ensures var d := StepConn(ea, eb, c, A, STminTimer);
            d.net.ab == [e] && d.net.b == c.net.b && d.addrB == c.addrB && d.net.hab == c.net.hab
  {
    var env := At(ea, None);
    var o := STminTimeout(env, c.net.a.tx);
    TransmitShape(env, c.net.a.tx);
    var size := Min(ChunkSize(env), |c.net.a.tx.buffer|);
    ConsecutiveFrameArrives(env, eb, c.net.a.tx.buffer[..size], c.net.a.tx.seqNum);
    e := Entry(Carry(ToCANFrame(o.frames[0], env.brs).value), ContinuationTag(env, c.net));
  }

  /** The peer takes it and finds a number missing. */
  lemma MismatchStep(ea: Env, eb: Env, c: Conn, e: Entry)
    requires Inv(eb, c.net.b) && c.net.b.rx.state == WaitCF && c.net.ab == [e]
    requires var pdu := Decoded(eb, e.frame);
             pdu.Some? && pdu.value.ConsecutiveFrame? && pdu.value.sequenceNumber != c.net.b.rx.seqNum
    ensures CanStepConn(ea, eb, c, B, Take(true))
    ensures SequenceMismatch(c.net.b.rx.seqNum, Decoded(eb, e.frame).value.sequenceNumber)
            in StepConn(ea, eb, c, B, Take(true)).net.errors
  {
    HeardAnyway(eb, c.addrB, e.frame);
  }

  // ---------- the torn transfer ----------

  lemma PlayTwo(ea: Env, eb: Env, c: Conn, m1: Move, m2: Move, c1: Conn)
    requires CanStepConn(ea, eb, c, m1.side, m1.act) && c1 == StepConn(ea, eb, c, m1.side, m1.act)
    requires CanStepConn(ea, eb, c1, m2.side, m2.act)
    ensures Play(ea, eb, c, [m1, m2]) == Some(StepConn(ea, eb, c1, m2.side, m2.act))
  {
    PlayOne(ea, eb, c, m1.side, m1.act);
    PlayOne(ea, eb, c1, m2.side, m2.act);
    PlayOn(ea, eb, c, [m1], [m2]);
    assert [m1] + [m2] == [m1, m2];
  }

  lemma PlayThree(ea: Env, eb: Env, c: Conn, m1: Move, m2: Move, m3: Move, c1: Conn, c2: Conn)
    requires CanStepConn(ea, eb, c, m1.side, m1.act) && c1 == StepConn(ea, eb, c, m1.side, m1.act)
    requires CanStepConn(ea, eb, c1, m2.side, m2.act) && c2 == StepConn(ea, eb, c1, m2.side, m2.act)
    requires CanStepConn(ea, eb, c2, m3.side, m3.act)
    ensures Play(ea, eb, c, [m1, m2, m3]) == Some(StepConn(ea, eb, c2, m3.side, m3.act))
  {
    PlayOne(ea, eb, c, m1.side, m1.act);
    PlayOne(ea, eb, c1, m2.side, m2.act);
    PlayOne(ea, eb, c2, m3.side, m3.act);
    PlayOn(ea, eb, c1, [m2], [m3]);
    PlayOn(ea, eb, c, [m1], [m2] + [m3]);
    assert [m1] + ([m2] + [m3]) == [m1, m2, m3];
  }

  /** The sequence number after `sn`, for four bits. */
  function Successor(sn: nat): nat { if sn >= 15 then 0 else sn + 1 }

  lemma SuccessorIsModular(sn: nat)
    requires sn <= 15
    ensures Successor(sn) == (sn + 1) % 16 && Successor(sn) != sn
  {
  }

  /** No end is switched but A, and A only away. */
  predicate OnlyAway(moves: seq<Move>, x: nat) {
    forall m :: m in moves && m.act.Switch? ==> m == Move(A, Switch(Some(x)))
  }

  /** The switch back, one frame, and the peer hears it. */
  function Back(): seq<Move> { [Move(A, Switch(None)), Move(A, STminTimer), Move(B, Take(true))] }

  /** Switch away, send one frame, which the peer ignores. */
  lemma GoAway(ea: Env, eb: Env, c: Conn, x: nat, next: nat) returns (d: Conn, away: seq<Move>)
    requires Linked(ea, eb) && ConnInv(ea, eb, c) && OtherAddress(ea, x) && Waiting(c)
    requires c.net.a.tx.state == Transmit && |c.net.a.tx.buffer| > ChunkSize(ea)
    requires next == Successor(c.net.a.tx.seqNum) && c.net.a.tx.seqNum <= 15
    ensures Play(ea, eb, c, away) == Some(d) && OnlyAway(away, x)
    ensures ConnInv(ea, eb, d) && d.addrA == Some(x) && d.addrB == c.addrB && Waiting(d)
    ensures d.net.b == c.net.b && d.net.a.tx.seqNum == next
  {
    SuccessorIsModular(c.net.a.tx.seqNum);
    AwayStep(ea, eb, c, x);
    var c1 := c.(addrA := Some(x));
    var e := AstrayStep(ea, eb, c1, next);
    ConnStepA(ea, eb, c1, STminTimer);
    var c2 := StepConn(ea, eb, c1, A, STminTimer);
    Ignored(ea, eb, c2, e);
    d := c2.(net := c2.net.(ab := []));
    PlayThree(ea, eb, c, Move(A, Switch(Some(x))), Move(A, STminTimer), Move(B, Take(true)), c1, c2);
    away := [Move(A, Switch(Some(x))), Move(A, STminTimer), Move(B, Take(true))];
  }

  /** In the middle of a transfer that goes elsewhere. */
  predicate Diverted(c: Conn, x: nat) { c.addrA == Some(x) && c.net.a.tx.state == Transmit }

  /** Diverted in mid-transfer, with the peer waiting for a number that is not the next one. */
  predicate Astray(ea: Env, eb: Env, c: Conn, x: nat, sn: nat, next: nat) {
    && Linked(ea, eb) && ConnInv(ea, eb, c) && Diverted(c, x) && Waiting(c)
    && c.net.b.rx.seqNum == sn && next == c.net.a.tx.seqNum && sn != next
  }

  /** Switch back, send the next frame, and the peer reports a mismatch. */
  lemma ComeBack(ea: Env, eb: Env, c: Conn, x: nat, sn: nat, next: nat) returns (d: Conn)
    requires Astray(ea, eb, c, x, sn, next)
    ensures Play(ea, eb, c, Back()) == Some(d) && SequenceMismatch(sn, next) in d.net.errors
  {
    var c1 := c.(addrA := None);
    assert StepConn(ea, eb, c, A, Switch(None)) == c1;
    var e := BackStep(ea, eb, c1);
    var c2 := StepConn(ea, eb, c1, A, STminTimer);
    MismatchStep(ea, eb, c2, e);
    d := StepConn(ea, eb, c2, B, Take(true));
    PlayThree(ea, eb, c, Move(A, Switch(None)), Move(A, STminTimer), Move(B, Take(true)), c1, c2);
  }

  lemma AwayAppend(first: seq<Move>, second: seq<Move>, x: nat)
    requires OnlyAway(first, x) && OnlyAway(second, x)
    ensures OnlyAway(first + second, x)
  {
  }

  /** One stretch of moves after another. */
  lemma PlayJoin(ea: Env, eb: Env, c: Conn, first: seq<Move>, d: Conn, second: seq<Move>)
    requires Play(ea, eb, c, first) == Some(d)
    ensures Play(ea, eb, c, first + second) == Play(ea, eb, d, second)
  {
    PlayOn(ea, eb, c, first, second);
  }

  /** From a transmitting sender to the moment before the switch back. */
  lemma LeadAstray(ea: Env, eb: Env, c: Conn, x: nat, sn: nat, next: nat) returns (moves: seq<Move>, d: Conn)
    requires Linked(ea, eb) && ConnInv(ea, eb, c) && OtherAddress(ea, x) && Waiting(c)
    requires c.net.a.tx.state == Transmit && |c.net.a.tx.buffer| > ChunkSize(ea)
    requires c.net.b.rx.seqNum == sn == c.net.a.tx.seqNum && sn <= 15 && next == Successor(sn) && sn != next
    ensures Play(ea, eb, c, moves) == Some(d) && OnlyAway(moves, x) && Astray(ea, eb, d, x, sn, next)
  {
    var c2, away := GoAway(ea, eb, c, x, next);
    var again;
    again, d := MakeTransmit(ea, eb, c2);
    ResumedWaits(c2, d);
    PlayJoin(ea, eb, c, away, c2, again);
    AwayAppend(away, again, x);
    moves := away + again;
  }

  /** The same, from a sender that may have to wait first. */
  lemma LeadAnyAstray(ea: Env, eb: Env, c: Conn, x: nat, sn: nat, next: nat) returns (moves: seq<Move>, d: Conn)
    requires Linked(ea, eb) && ConnInv(ea, eb, c) && OtherAddress(ea, x) && Waiting(c)
    requires |c.net.a.tx.buffer| > ChunkSize(ea)
    requires c.net.b.rx.seqNum == sn == c.net.a.tx.seqNum && sn <= 15 && next == Successor(sn) && sn != next
    ensures Play(ea, eb, c, moves) == Some(d) && OnlyAway(moves, x) && Astray(ea, eb, d, x, sn, next)
  {
    var resume, c1 := MakeTransmit(ea, eb, c);
    ResumedWaits(c, c1);
    var lead;
    lead, d := LeadAstray(ea, eb, c1, x, sn, next);
    PlayJoin(ea, eb, c, resume, c1, lead);
    AwayAppend(resume, lead, x);
    moves := resume + lead;
  }

  lemma Torn(ea: Env, eb: Env, c: Conn, x: nat, sn: nat, next: nat) returns (moves: seq<Move>, d: Conn, torn: Conn)
    requires Linked(ea, eb) && ConnInv(ea, eb, c) && OtherAddress(ea, x) && Waiting(c)
    requires |c.net.a.tx.buffer| > ChunkSize(ea)
    requires c.net.b.rx.seqNum == sn == c.net.a.tx.seqNum && sn <= 15 && next == Successor(sn) && sn != next
    ensures Play(ea, eb, c, moves) == Some(d) && OnlyAway(moves, x) && Diverted(d, x)
    ensures Play(ea, eb, d, Back()) == Some(torn) && SequenceMismatch(sn, next) in torn.net.errors
  {
    moves, d := LeadAnyAstray(ea, eb, c, x, sn, next);
    torn := ComeBack(ea, eb, d, x, sn, next);
  }

  /** Whenever a transfer with two or more consecutive frames left is under way and heard, its address
      can be switched to any other one such that the switch back makes the peer report a mismatch. */
  lemma TornTransfer(ea: Env, eb: Env, c: Conn, x: nat) returns (moves: seq<Move>, d: Conn, torn: Conn)
    requires InTransfer(ea, eb, c) && OtherAddress(ea, x)
    ensures Play(ea, eb, c, moves) == Some(d) && OnlyAway(moves, x) && Diverted(d, x)
    ensures Play(ea, eb, d, Back()) == Some(torn)
    ensures var sn := c.net.b.rx.seqNum; SequenceMismatch(sn, Successor(sn)) in torn.net.errors
  {
    PeerExpectsNext(ea, eb, c);
    var sn := c.net.b.rx.seqNum;
    moves, d, torn := Torn(ea, eb, c, x, sn, Successor(sn));
  }

  // ---------- such transfers exist ----------

  /** The payload is sent as several frames and the peer accepts it. */
  predicate Fragmented(ea: Env, eb: Env, p: Bytes) {
    && Sendable(ea, p) && |p| <= ea.cfg.maxPayloadSize && |p| <= eb.cfg.maxPayloadSize
    && !FitsSingleFrame(ea, |p|)
  }

  /** And it needs at least two consecutive frames. */
  predicate LongPayload(ea: Env, eb: Env, p: Bytes) {
    Fragmented(ea, eb, p) && |p| > FirstChunkSize(ea, |p|) + ChunkSize(ea)
  }

  lemma StartStep(ea: Env, eb: Env, p: Bytes) returns (e: Entry)
    requires Linked(ea, eb) && Fragmented(ea, eb, p)
    ensures CanStepConn(ea, eb, InitialConn, A, Start(p))
    ensures var c := StepConn(ea, eb, InitialConn, A, Start(p));
            && c.net.ab == [e] && c.net.ba == [] && c.net.b == NewSession && c.addrA == None && c.addrB == None
            && c.net.a.tx.state == WaitFC && c.net.a.tx.buffer == p[FirstChunkSize(ea, |p|)..]
            && c.net.hab.sent == [p] && c.net.hab.delivered == []
    ensures 0 < FirstChunkSize(ea, |p|) < |p|
    ensures Decoded(eb, e.frame) == Some(FirstFrame(|p|, p[..FirstChunkSize(ea, |p|)]))
  {
    var env := At(ea, None);
    StartSendsFirst(env, eb, IdleTx, [], p);
    FirstFrameArrives(env, eb, p);
    e := Entry(Carry(ToCANFrame(InitiateTx(env, IdleTx, p).frames[0], env.brs).value), FirstTag(env, 0, p));
  }

  /** The receiver waits with the first chunk of the payload. */
  predicate HoldsFirst(ea: Env, rx: Rx, p: Bytes) {
    && rx.state == WaitCF && rx.frameLen == |p| && rx.seqNum == 1
    && 0 < FirstChunkSize(ea, |p|) < |p| && rx.buffer == p[..FirstChunkSize(ea, |p|)]
  }

  lemma HearFirst(ea: Env, eb: Env, c: Conn, e: Entry, p: Bytes)
    requires Linked(ea, eb) && Fragmented(ea, eb, p) && c.net.ab == [e] && c.net.ba == [] && c.net.b == NewSession
    requires 0 < FirstChunkSize(ea, |p|) < |p|
    requires Decoded(eb, e.frame) == Some(FirstFrame(|p|, p[..FirstChunkSize(ea, |p|)]))
    ensures CanStepConn(ea, eb, c, B, Take(true))
    ensures var d := StepConn(ea, eb, c, B, Take(true));
            && d.net.ab == [] && d.net.a == c.net.a && HoldsFirst(ea, d.net.b.rx, p)
            && d.addrA == c.addrA && d.addrB == c.addrB
            && d.net.hab.sent == c.net.hab.sent && d.net.hab.delivered == c.net.hab.delivered
            && (if eb.cfg.manualFlowControl then d.net.ba == []
                else |d.net.ba| == 1
                     && Decoded(ea, d.net.ba[0].frame)
                        == Some(FlowControlFrame(CONTINUE_TO_SEND, eb.cfg.blockSize, eb.cfg.stMin * 1000)))
  {
    HeardAnyway(eb, c.addrB, e.frame);
    assert c.net.hab.delivered + [] == c.net.hab.delivered;
    if !eb.cfg.manualFlowControl { FlowControlArrives(eb, ea); }
  }

  lemma HearFlow(ea: Env, eb: Env, c: Conn, bs: byte, st: nat)
    requires ConnInv(ea, eb, c) && |c.net.ba| == 1 && c.net.a.tx.state == WaitFC
    requires Decoded(ea, c.net.ba[0].frame) == Some(FlowControlFrame(CONTINUE_TO_SEND, bs, st))
    ensures CanStepConn(ea, eb, c, A, Take(true))
    ensures var d := StepConn(ea, eb, c, A, Take(true));
            && d.net.ab == c.net.ab && d.net.ba == [] && d.net.b == c.net.b && d.addrA == c.addrA
            && d.net.a.tx.state == Transmit && d.net.a.tx.buffer == c.net.a.tx.buffer
  {
    HeardAnyway(ea, c.addrA, c.net.ba[0].frame);
  }

  lemma InitialIsInv(ea: Env, eb: Env)
    requires Linked(ea, eb)
    ensures ConnInv(ea, eb, InitialConn)
  {
    assert Path(AB(InitialNet)) == [NOTHING] && Path(BA(InitialNet)) == [NOTHING];
  }

  /** The peer has heard the First Frame. */
  lemma FirstHeard(ea: Env, eb: Env, p: Bytes) returns (c1: Conn, c2: Conn)
    requires Linked(ea, eb) && Fragmented(ea, eb, p)
    ensures CanStepConn(ea, eb, InitialConn, A, Start(p)) && c1 == StepConn(ea, eb, InitialConn, A, Start(p))
    ensures CanStepConn(ea, eb, c1, B, Take(true)) && c2 == StepConn(ea, eb, c1, B, Take(true))
    ensures ConnInv(ea, eb, c2) && c2.addrA == None && c2.net.ab == [] && HoldsFirst(ea, c2.net.b.rx, p)
    ensures c2.net.a.tx.state == WaitFC && c2.net.a.tx.buffer == p[FirstChunkSize(ea, |p|)..]
    ensures c2.net.hab.sent == [p] && c2.net.hab.delivered == []
    ensures if eb.cfg.manualFlowControl then c2.net.ba == []
            else |c2.net.ba| == 1 && Decoded(ea, c2.net.ba[0].frame)
                                     == Some(FlowControlFrame(CONTINUE_TO_SEND, eb.cfg.blockSize, eb.cfg.stMin * 1000))
  {
    InitialIsInv(ea, eb);
    var e := StartStep(ea, eb, p);
    ConnStepA(ea, eb, InitialConn, Start(p));
    c1 := StepConn(ea, eb, InitialConn, A, Start(p));
    HearFirst(ea, eb, c1, e, p);
    StepKeeps(ea, eb, c1, B, Take(true));
    c2 := StepConn(ea, eb, c1, B, Take(true));
  }

  lemma LongTransferStarts(ea: Env, eb: Env, p: Bytes) returns (moves: seq<Move>, c: Conn)
    requires Linked(ea, eb) && LongPayload(ea, eb, p)
    ensures forall m :: m in moves ==> !m.act.Switch?
    ensures Play(ea, eb, InitialConn, moves) == Some(c) && InTransfer(ea, eb, c)
  {
    var c1, c2 := FirstHeard(ea, eb, p);
    PlayTwo(ea, eb, InitialConn, Move(A, Start(p)), Move(B, Take(true)), c1);
    if eb.cfg.manualFlowControl {
      moves, c := [Move(A, Start(p)), Move(B, Take(true))], c2;
    } else {
      HearFlow(ea, eb, c2, eb.cfg.blockSize, eb.cfg.stMin * 1000);
      ConnStepA(ea, eb, c2, Take(true));
      PlayThree(ea, eb, InitialConn, Move(A, Start(p)), Move(B, Take(true)), Move(A, Take(true)), c1, c2);
      moves, c := [Move(A, Start(p)), Move(B, Take(true)), Move(A, Take(true))], StepConn(ea, eb, c2, A, Take(true));
    }
  }

  /** For all linked ends, every long enough payload and every other address there is a sequence of
      moves from a new connection after which the switch back makes the peer report a mismatch. */
  lemma LongTransfersTear(ea: Env, eb: Env, p: Bytes, x: nat) returns (moves: seq<Move>, d: Conn, torn: Conn)
    requires Linked(ea, eb) && LongPayload(ea, eb, p) && OtherAddress(ea, x)
    ensures Play(ea, eb, InitialConn, moves) == Some(d) && OnlyAway(moves, x) && Diverted(d, x)
    ensures Play(ea, eb, d, Back()) == Some(torn)
    ensures exists e :: e in torn.net.errors && e.SequenceMismatch?
  {
    var start, c := LongTransferStarts(ea, eb, p);
    var lead;
    lead, d, torn := TornTransfer(ea, eb, c, x);
    PlayJoin(ea, eb, InitialConn, start, c, lead);
    AwayAppend(start, lead, x);
    moves := start + lead;
  }

  // ---------- runs ----------

  /** Every step of the run but number `k` is safe, and that one switches end A back. */
  ghost predicate OnlyBackUnsafe(ea: Env, eb: Env, cs: seq<Conn>, sides: seq<Side>, acts: seq<Action>, k: nat)
    requires |cs| == |acts| + 1 == |sides| + 1
  {
    && k < |acts| && sides[k] == A && acts[k] == Switch(None)
    && !SafeStep(ea, eb, cs[k], A, Switch(None))
    && forall i :: 0 <= i < |acts| && i != k ==> SafeStep(ea, eb, cs[i], sides[i], acts[i])
  }

  /** Switching away is safe at any moment. */
  lemma AwayIsSafe(ea: Env, eb: Env, c: Conn, m: Move, x: nat)
    requires OtherAddress(ea, x) && (m.act.Switch? ==> m == Move(A, Switch(Some(x))))
    ensures SafeStep(ea, eb, c, m.side, m.act)
  {
  }

  lemma BackIsUnsafe(ea: Env, eb: Env, c: Conn, x: nat)
    requires OtherAddress(ea, x) && Diverted(c, x)
    ensures !SafeStep(ea, eb, c, A, Switch(None))
  {
  }

  /** Moves that only switch away, and then the switch back with what follows it, as one run. */
  lemma RunBack(ea: Env, eb: Env, moves: seq<Move>, d: Conn, torn: Conn, x: nat)
    returns (cs: seq<Conn>, sides: seq<Side>, acts: seq<Action>, k: nat)
    requires Play(ea, eb, InitialConn, moves) == Some(d) && OnlyAway(moves, x) && OtherAddress(ea, x)
    requires Diverted(d, x) && Play(ea, eb, d, Back()) == Some(torn)
    ensures ConnRun(ea, eb, cs, sides, acts) && OnlyBackUnsafe(ea, eb, cs, sides, acts, k)
    ensures k == |moves| && cs[k] == d && cs[|acts|] == torn
  {
    cs, sides, acts := PlayPartsStretch(ea, eb, InitialConn, moves, d, Back());
    k := |moves|;
    forall i | 0 <= i < |acts| && i != k ensures SafeStep(ea, eb, cs[i], sides[i], acts[i]) {
      var m := (moves + Back())[i];
      assert m == Move(sides[i], acts[i]) && (i < k ==> m in moves) && (i > k ==> m == Back()[i - k]);
      AwayIsSafe(ea, eb, cs[i], m, x);
    }
    assert Move(sides[k], acts[k]) == (moves + Back())[k] == Back()[0];
    BackIsUnsafe(ea, eb, d, x);
  }

  /** The converse of the safety theorem: for all linked ends, every long enough payload and every other
      address, a run with a single unsafe step, the switch back, in which a mismatch is reported. */
  lemma UnsafeRun(ea: Env, eb: Env, p: Bytes, x: nat)
    returns (cs: seq<Conn>, sides: seq<Side>, acts: seq<Action>, k: nat)
    requires Linked(ea, eb) && LongPayload(ea, eb, p) && OtherAddress(ea, x)
    ensures ConnRun(ea, eb, cs, sides, acts) && OnlyBackUnsafe(ea, eb, cs, sides, acts, k)
    ensures exists e :: e in cs[|acts|].net.errors && e.SequenceMismatch?
  {
    var moves, d, torn := LongTransfersTear(ea, eb, p, x);
    cs, sides, acts, k := RunBack(ea, eb, moves, d, torn, x);
  }
}
