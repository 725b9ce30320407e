/** How many consecutive frames and flow controls exact delivery uses. */
module FrameCounts {
  import opened Basics
  import opened Arith
  import opened Link
  import opened IsoTpSpec
  import opened Direction
  import opened Network
  import opened ExactDelivery
  import opened ExactNetwork

  /** ceil((n - first chunk) / (frame length - 1)) consecutive frames, none for a Single Frame. */
  function NumCF(env: Env, n: nat): nat {
    var c := ChunkSize(env);
    if FitsSingleFrame(env, n) then 0 else (Max(0, n - FirstChunkSize(env, n)) + c - 1) / c
  }

  /** 1 + (numCF - 1) / BS flow controls, one when BS is 0, none for a Single Frame. */
  function NumFC(env: Env, bs: nat, n: nat): nat {
    if FitsSingleFrame(env, n) then 0
    else if bs == 0 || NumCF(env, n) == 0 then 1
    else 1 + (NumCF(env, n) - 1) / bs
  }

  function SumCF(env: Env, sent: seq<Bytes>): nat {
    if sent == [] then 0
    else SumCF(env, sent[..|sent| - 1]) + NumCF(env, |sent[|sent| - 1]|)
  }

  function SumFC(env: Env, bs: nat, sent: seq<Bytes>): nat {
    if sent == [] then 0
    else SumFC(env, bs, sent[..|sent| - 1]) + NumFC(env, bs, |sent[|sent| - 1]|)
  }

  /** The byte range of a frame in closed form. */
  predicate Closed(env: Env, sent: seq<Bytes>, t: Tag) {
    0 <= t.k < |sent| ==>
      var n := |sent[t.k]|;
      if FitsSingleFrame(env, n) then t.i == 0 && t.end == n
      else
        var f, c := FirstChunkSize(env, n), ChunkSize(env);
        && 0 < f < n && t.end == Min(n, f + t.i * c)
        && (t.i > 0 ==> f + (t.i - 1) * c < n)
  }

  /** The last frame of a payload is number NumCF. */
  lemma CompleteIsLast(env: Env, sent: seq<Bytes>, t: Tag)
    requires 0 <= t.k < |sent| && Closed(env, sent, t) && Complete(sent, t)
    ensures t.i == NumCF(env, |sent[t.k]|)
    ensures !FitsSingleFrame(env, |sent[t.k]|) ==> t.i > 0
  {
  }

  lemma ClosedNext(env: Env, sent: seq<Bytes>, last: Tag)
    requires 0 <= last.k < |sent| && Closed(env, sent, last) && !Complete(sent, last)
    ensures Closed(env, sent, NextTag(env, sent, last))
  {
  }

  /** Consecutive frames sent up to and including `last`. */
  function CFsSent(env: Env, sent: seq<Bytes>, last: Tag): nat {
    if 0 <= last.k < |sent| then SumCF(env, sent[..last.k]) + last.i else 0
  }

  /** Triggers among the frames of one payload up to number `i`. */
  function Triggers(env: Env, bs: nat, n: nat, i: nat, complete: bool): nat {
    if FitsSingleFrame(env, n) then 0
    else if bs == 0 then 1
    else 1 + (if complete && i > 0 then (i - 1) / bs else i / bs)
  }

  /** Flow controls the sender has taken so far; the one it waits for is still missing. */
  function FCsTaken(env: Env, bs: nat, sent: seq<Bytes>, last: Tag, tx: Tx): int {
    if 0 <= last.k < |sent| then
      SumFC(env, bs, sent[..last.k])
      + Triggers(env, bs, |sent[last.k]|, last.i, Complete(sent, last))
      - if tx.state == WaitFC then 1 else 0
    else 0
  }

  lemma DivNext(bs: nat, i: nat)
    requires bs > 0
    ensures (i + 1) / bs == i / bs + if Blocks(bs, i + 1) == 0 then 1 else 0
  {
    var q, r := i / bs, i % bs;
    assert i == q * bs + r;
    if r + 1 == bs {
      assert i + 1 == (q + 1) * bs;
      DivModUnique(i + 1, bs, q + 1, 0);
    } else {
      DivModUnique(i + 1, bs, q, r + 1);
    }
  }

  /** Once the last payload is complete, the counts are the closed forms of all payloads. */
  lemma AllSent(env: Env, bs: nat, sent: seq<Bytes>, last: Tag, tx: Tx)
    requires last.k == |sent| - 1 && Closed(env, sent, last) && Complete(sent, last) && tx.state == Idle
    ensures CFsSent(env, sent, last) == SumCF(env, sent)
    ensures FCsTaken(env, bs, sent, last, tx) == SumFC(env, bs, sent)
  {
    if sent != [] {
      CompleteIsLast(env, sent, last);
      assert sent[..|sent| - 1] == sent[..last.k];
    }
  }

  // ---------- counters follow the sender ----------

  /** One more consecutive frame; a flow control is owed exactly after a trigger. */
  lemma SenderNext(env: Env, bs: nat, sent: seq<Bytes>, last: Tag, tx: Tx, tx': Tx)
    requires 0 <= last.k < |sent| && Closed(env, sent, last) && !Complete(sent, last)
    requires tx.state != WaitFC
    requires tx'.state == WaitFC <==> Trigger(bs, sent, NextTag(env, sent, last))
    ensures var next := NextTag(env, sent, last);
            && Closed(env, sent, next)
            && CFsSent(env, sent, next) == CFsSent(env, sent, last) + 1
            && FCsTaken(env, bs, sent, next, tx') == FCsTaken(env, bs, sent, last, tx)
  {
    ClosedNext(env, sent, last);
    if bs > 0 { DivNext(bs, last.i); }
  }

  /** A new payload: the counts of the finished one are its closed forms. */
  lemma SenderStart(env: Env, bs: nat, sent: seq<Bytes>, last: Tag, tx: Tx, p: Bytes, t: Tag, tx': Tx)
    requires last.k == |sent| - 1 && Closed(env, sent, last) && Complete(sent, last) && tx.state == Idle
    requires t.k == |sent| && t.i == 0 && Closed(env, sent + [p], t)
    requires tx'.state == if FitsSingleFrame(env, |p|) then Idle else WaitFC
    ensures CFsSent(env, sent + [p], t) == CFsSent(env, sent, last)
    ensures FCsTaken(env, bs, sent + [p], t, tx') == FCsTaken(env, bs, sent, last, tx)
  {
    assert (sent + [p])[..|sent|] == sent;
    AllSent(env, bs, sent, last, tx);
  }

  // ---------- counters follow the steps ----------

  function CFState(ea: Env, net: Net): nat { CFsSent(ea, net.hab.sent, LastSent(AB(net))) }

  function FCState(ea: Env, eb: Env, net: Net): int {
    FCsTaken(ea, eb.cfg.blockSize, net.hab.sent, LastSent(AB(net)), net.a.tx)
  }

  predicate TakesFlow(net: Net, act: Action) { act.Take? && net.ba != [] && net.ba[0].tag.None? }

  predicate Counts(ea: Env, eb: Env, net: Net, act: Action, net': Net) {
    && Closed(ea, net'.hab.sent, LastSent(AB(net')))
    && CFState(ea, net') == CFState(ea, net) + (if act.STminTimer? then 1 else 0)
    && FCState(ea, eb, net') == FCState(ea, eb, net) + if TakesFlow(net, act) then 1 else 0
  }

  lemma SenderAfterStart(ea: Env, eb: Env, net: Net, p: Bytes)
    requires Automatic(ea, eb) && ExactNet(ea, eb, net) && Benign(ea, eb, net, Start(p))
    ensures var net', sent, last := ActA(ea, eb, net, Start(p)), net.hab.sent, LastSent(AB(net));
            && net'.hab.sent == sent + [p]
            && last.k == |sent| - 1 && Complete(sent, last) && net.a.tx.state == Idle
            && LastSent(AB(net')).k == |sent| && LastSent(AB(net')).i == 0
            && Closed(ea, sent + [p], LastSent(AB(net')))
            && net'.a.tx.state == if FitsSingleFrame(ea, |p|) then Idle else WaitFC
  {
    var e, tx := StartShape(ea, eb, net, p);
    LastAfterPush(AB(net), e, AB(ActA(ea, eb, net, Start(p))));
  }

  lemma StartCounts(ea: Env, eb: Env, net: Net, p: Bytes)
    requires Automatic(ea, eb) && ExactNet(ea, eb, net) && Benign(ea, eb, net, Start(p))
    requires Closed(ea, net.hab.sent, LastSent(AB(net)))
    ensures Counts(ea, eb, net, Start(p), ActA(ea, eb, net, Start(p)))
  {
    SenderAfterStart(ea, eb, net, p);
    var net' := ActA(ea, eb, net, Start(p));
    SenderStart(ea, eb.cfg.blockSize, net.hab.sent, LastSent(AB(net)), net.a.tx, p, LastSent(AB(net')), net'.a.tx);
  }

  /** The sender has gone on by one frame. */
  predicate SentNext(ea: Env, eb: Env, net: Net, net': Net) {
    && 0 <= LastSent(AB(net)).k < |net.hab.sent| && net.a.tx.state == Transmit
    && !Complete(net.hab.sent, LastSent(AB(net)))
    && var next := NextTag(ea, net.hab.sent, LastSent(AB(net)));
       && net'.hab.sent == net.hab.sent && LastSent(AB(net')) == next
       && (net'.a.tx.state == WaitFC <==> Trigger(eb.cfg.blockSize, net.hab.sent, next))
  }

  lemma SentNextCounts(ea: Env, eb: Env, net: Net, net': Net)
    requires SentNext(ea, eb, net, net') && Closed(ea, net.hab.sent, LastSent(AB(net)))
    ensures Counts(ea, eb, net, STminTimer, net')
  {
    SenderNext(ea, eb.cfg.blockSize, net.hab.sent, LastSent(AB(net)), net.a.tx, net'.a.tx);
  }

  lemma STminCounts(ea: Env, eb: Env, net: Net)
    requires Automatic(ea, eb) && ExactNet(ea, eb, net) && Benign(ea, eb, net, STminTimer)
    requires Closed(ea, net.hab.sent, LastSent(AB(net)))
    ensures Counts(ea, eb, net, STminTimer, ActA(ea, eb, net, STminTimer))
  {
    STminStays(ea, eb, net);
    SentNextCounts(ea, eb, net, ActA(ea, eb, net, STminTimer));
  }

  lemma TakeCounts(ea: Env, eb: Env, net: Net)
    requires Automatic(ea, eb) && ExactNet(ea, eb, net) && net.ba != []
    requires Closed(ea, net.hab.sent, LastSent(AB(net)))
    ensures Counts(ea, eb, net, Take(true), TakeFrame(ea, net, true))
  {
    SenderAfterTake(ea, eb, net);
    assert LastSent(AB(TakeFrame(ea, net, true))) == LastSent(AB(net));
    assert net.a.tx.state != Idle ==> 0 <= LastSent(AB(net)).k < |net.hab.sent|;
  }

  /** A take leaves the data path of the taker's own direction alone; a flow control turns WaitFC into Transmit. */
  lemma SenderAfterTake(ea: Env, eb: Env, net: Net)
    requires Automatic(ea, eb) && ExactNet(ea, eb, net) && net.ba != []
    ensures var net' := TakeFrame(ea, net, true);
            && Path(AB(net')) == Path(AB(net)) && net'.hab.sent == net.hab.sent
            && (if net.ba[0].tag.Some? then net'.a.tx == net.a.tx
                else net.a.tx.state == WaitFC && net'.a.tx.state == Transmit)
  {
    if net.ba[0].tag.Some? {
      var o := TakeDataShape(ea, eb, net);
      FlowPushed(ea, eb, AB(net), Flows(net.ba), o.frames);
    } else {
      var o := TakeFlowShape(ea, eb, net);
    }
  }

  lemma ActCounts(ea: Env, eb: Env, net: Net, act: Action)
    requires Automatic(ea, eb) && ExactNet(ea, eb, net) && Benign(ea, eb, net, act)
    requires Closed(ea, net.hab.sent, LastSent(AB(net)))
    ensures Counts(ea, eb, net, act, ActA(ea, eb, net, act))
  {
    match act
    case Start(p) => StartCounts(ea, eb, net, p);
    case Take(_) => TakeCounts(ea, eb, net);
    case STminTimer => STminCounts(ea, eb, net);
  }

  /** A step of one end leaves the counters of the other end's sender alone. */
  lemma OtherSide(ea: Env, eb: Env, net: Net, act: Action)
    requires Automatic(ea, eb) && ExactNet(ea, eb, net) && Benign(ea, eb, net, act)
    ensures var net' := ActA(ea, eb, net, act);
            LastSent(BA(net')) == LastSent(BA(net)) && net'.b.tx == net.b.tx && net'.hba.sent == net.hba.sent
  {
    match act
    case Start(p) =>
      var e, tx := StartShape(ea, eb, net, p);
      assert Path(BA(ActA(ea, eb, net, act))) == Path(BA(net));
    case STminTimer =>
      var e, tx := STminShape(ea, eb, net);
      assert Path(BA(ActA(ea, eb, net, act))) == Path(BA(net));
    case Take(_) =>
      PopPath(BA(net));
      var net' := TakeFrame(ea, net, true);
      if net.ba[0].tag.Some? {
        var o := TakeDataShape(ea, eb, net);
        assert Path(BA(net')) == Path(Pop(BA(net)));
      } else {
        var o := TakeFlowShape(ea, eb, net);
        assert Path(BA(net')) == Path(Pop(BA(net)));
      }
  }

  // ---------- runs ----------

  function SendsCF(side: Side, act: Action): nat { if side == A && act.STminTimer? then 1 else 0 }

  function TakesFC(net: Net, side: Side, act: Action): nat { if side == A && TakesFlow(net, act) then 1 else 0 }

  function CountCF(sides: seq<Side>, acts: seq<Action>): nat
    requires |sides| == |acts|
  {
    if acts == [] then 0
    else
      var n := |acts| - 1;
      CountCF(sides[..n], acts[..n]) + SendsCF(sides[n], acts[n])
  }

  function CountFC(nets: seq<Net>, sides: seq<Side>, acts: seq<Action>): nat
    requires |sides| == |acts| && |nets| == |acts| + 1
  {
    if acts == [] then 0
    else
      var n := |acts| - 1;
      CountFC(nets[..n + 1], sides[..n], acts[..n]) + TakesFC(nets[n], sides[n], acts[n])
  }

  /** End A has sent `cfs` consecutive frames and taken `fcs` flow controls. */
  predicate Counted(ea: Env, eb: Env, net: Net, cfs: nat, fcs: nat) {
    Closed(ea, net.hab.sent, LastSent(AB(net))) && cfs == CFState(ea, net) && fcs == FCState(ea, eb, net)
  }

  lemma StepCounts(ea: Env, eb: Env, net: Net, side: Side, act: Action, cfs: nat, fcs: nat)
    requires Automatic(ea, eb) && ExactNet(ea, eb, net) && BenignStep(ea, eb, net, side, act)
    requires CanStep(ea, eb, net, side, act) && Counted(ea, eb, net, cfs, fcs)
    ensures Counted(ea, eb, StepNet(ea, eb, net, side, act), cfs + SendsCF(side, act), fcs + TakesFC(net, side, act))
  {
    if side == A {
      ActCounts(ea, eb, net, act);
    } else {
      OtherStepCounts(ea, eb, net, act);
    }
  }

  lemma OtherStepCounts(ea: Env, eb: Env, net: Net, act: Action)
    requires Automatic(ea, eb) && ExactNet(ea, eb, net) && Benign(eb, ea, Swap(net), act)
    ensures CanStep(ea, eb, net, B, act)
    ensures var net' := StepNet(ea, eb, net, B, act);
            && LastSent(AB(net')) == LastSent(AB(net)) && net'.hab.sent == net.hab.sent
            && net'.a.tx == net.a.tx
  {
    OtherSide(eb, ea, Swap(net), act);
    var net' := StepNet(ea, eb, net, B, act);
    assert AB(net') == BA(ActA(eb, ea, Swap(net), act)) && AB(net) == BA(Swap(net));
  }

  lemma {:induction false} RunCounts(ea: Env, eb: Env, nets: seq<Net>, sides: seq<Side>, acts: seq<Action>)
    requires Automatic(ea, eb) && BenignRun(ea, eb, nets, sides, acts)
    ensures Counted(ea, eb, nets[|acts|], CountCF(sides, acts), CountFC(nets, sides, acts))
    decreases |acts|
  {
    if acts != [] {
      var n := |acts| - 1;
      BenignFront(ea, eb, nets, sides, acts);
      RunCounts(ea, eb, nets[..n + 1], sides[..n], acts[..n]);
      BenignRunStays(ea, eb, nets[..n + 1], sides[..n], acts[..n]);
      StepCounts(ea, eb, nets[n], sides[n], acts[n],
                 CountCF(sides[..n], acts[..n]), CountFC(nets[..n + 1], sides[..n], acts[..n]));
    }
  }

  lemma CountsAtRest(ea: Env, eb: Env, net: Net)
    requires Automatic(ea, eb) && ExactNet(ea, eb, net) && Quiescent(net)
    requires Closed(ea, net.hab.sent, LastSent(AB(net)))
    ensures CFState(ea, net) == SumCF(ea, net.hab.sent)
    ensures FCState(ea, eb, net) == SumFC(ea, eb.cfg.blockSize, net.hab.sent)
  {
    RestIsExact(ea, eb, net);
    AllSent(ea, eb.cfg.blockSize, net.hab.sent, LastSent(AB(net)), net.a.tx);
  }

  /** When a run of exact delivery is at rest, end A has sent NumCF consecutive frames and taken
      NumFC flow controls for every payload it started, and not one more. (The ends are
      interchangeable: swap the environments for end B.) */
  lemma FramesUsed(ea: Env, eb: Env, nets: seq<Net>, sides: seq<Side>, acts: seq<Action>)
    requires Automatic(ea, eb) && BenignRun(ea, eb, nets, sides, acts) && Quiescent(nets[|acts|])
    ensures CountCF(sides, acts) == SumCF(ea, nets[|acts|].hab.sent)
    ensures CountFC(nets, sides, acts) == SumFC(ea, eb.cfg.blockSize, nets[|acts|].hab.sent)
  {
    RunCounts(ea, eb, nets, sides, acts);
    BenignRunStays(ea, eb, nets, sides, acts);
    CountsAtRest(ea, eb, nets[|acts|]);
  }
}
