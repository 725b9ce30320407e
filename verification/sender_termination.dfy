/** No peer keeps one transfer alive for ever: a bound on the events a transfer accepts. */
module SenderTermination {
  import opened Basics
  import opened Arith
  import opened Framing
  import opened IsoTpSpec
  import opened SessionInvariant

  /** What can reach the transmit half of a session while a transfer is active. */
  datatype TxEvent = FlowControl(flowStatus: byte, blockSize: nat, stMinUS: nat) | STminFires | FCFires

  function Apply(env: Env, tx: Tx, ev: TxEvent): Tx {
    match ev
    case FlowControl(fs, bs, st) => HandleFlowControl(env, tx, fs, bs, st).tx
    case STminFires => STminTimeout(env, tx).tx
    case FCFires => FCTimeout(tx).tx
  }

  predicate TxEnabled(tx: Tx, ev: TxEvent) {
    match ev
    case FlowControl(fs, _, _) => fs <= OVERFLOW
    case STminFires => tx.stTimer
    case FCFires => tx.fcTimer
  }

  /** Flow control outside WaitFC is ignored; everything else counts as accepted. */
  predicate Accepted(tx: Tx, ev: TxEvent) {
    ev.FlowControl? ==> tx.state == WaitFC
  }

  /** The lexicographic measure: bytes left, then WaitFC above Transmit, then WAITs left. */
  predicate Smaller(env: Env, a: Tx, b: Tx) {
    var stage := (t: Tx) => if t.state == WaitFC then 1 else 0;
    || |a.buffer| < |b.buffer|
    || (|a.buffer| == |b.buffer| && stage(a) < stage(b))
    || (|a.buffer| == |b.buffer| && stage(a) == stage(b)
        && 0 <= env.cfg.maxWaitFrames - a.waitFrames < env.cfg.maxWaitFrames - b.waitFrames)
  }

  lemma AcceptedStepDecreases(env: Env, tx: Tx, ev: TxEvent)
    requires env.cfg.maxWaitFrames >= 0 && TxInv(env, tx) && tx.state != Idle
    requires TxEnabled(tx, ev) && Accepted(tx, ev)
    ensures TxInv(env, Apply(env, tx, ev))
    ensures Apply(env, tx, ev).state == Idle || Smaller(env, Apply(env, tx, ev), tx)
  {
    if ev.STminFires? { STminTimeoutKeeps(env, tx); }
  }

  /** The measure folded into one number. */
  function Rank(env: Env, tx: Tx): nat
    requires env.cfg.maxWaitFrames >= 0 && TxInv(env, tx)
  {
    if tx.state == Idle then 0
    else |tx.buffer| * (env.cfg.maxWaitFrames + 2)
         + (if tx.state == WaitFC then env.cfg.maxWaitFrames + 1 - tx.waitFrames else 0)
  }

  lemma RankDrops(env: Env, tx: Tx, ev: TxEvent)
    requires env.cfg.maxWaitFrames >= 0 && TxInv(env, tx) && tx.state != Idle
    requires TxEnabled(tx, ev) && Accepted(tx, ev)
    ensures TxInv(env, Apply(env, tx, ev)) && Rank(env, Apply(env, tx, ev)) < Rank(env, tx)
  {
    AcceptedStepDecreases(env, tx, ev);
    var t := Apply(env, tx, ev);
    SmallerRank(env, t, tx);
  }

  /** The folded measure follows the lexicographic one. */
  lemma SmallerRank(env: Env, a: Tx, b: Tx)
    requires env.cfg.maxWaitFrames >= 0 && TxInv(env, a) && TxInv(env, b) && b.state != Idle
    requires a.state == Idle || Smaller(env, a, b)
    ensures Rank(env, a) < Rank(env, b)
  {
    var k := env.cfg.maxWaitFrames + 2;
    if a.state == Idle {
      MulMono(1, |b.buffer|, k);
    } else if |a.buffer| < |b.buffer| {
      MulMono(|a.buffer| + 1, |b.buffer|, k);
      assert (|a.buffer| + 1) * k == |a.buffer| * k + k;
    } else {
      assert |a.buffer| * k == |b.buffer| * k;
    }
  }

  /** States of one transfer: every event is enabled, and the transfer is active until the last state. */
  ghost predicate Transfer(env: Env, txs: seq<Tx>, events: seq<TxEvent>) {
    && |txs| == |events| + 1 && TxInv(env, txs[0])
    && forall i :: 0 <= i < |events| ==>
         txs[i].state != Idle && TxEnabled(txs[i], events[i]) && txs[i + 1] == Apply(env, txs[i], events[i])
  }

  function AcceptedCount(txs: seq<Tx>, events: seq<TxEvent>): nat
    requires |txs| == |events| + 1
  {
    if events == [] then 0
    else (if Accepted(txs[0], events[0]) then 1 else 0) + AcceptedCount(txs[1..], events[1..])
  }

  /** With a WAIT limit, whatever flow controls the peer sends and however the timers fall,
      a transfer accepts at most `Rank` of its first state events in all. */
  lemma {:induction false} TransferIsBounded(env: Env, txs: seq<Tx>, events: seq<TxEvent>)
    requires env.cfg.maxWaitFrames >= 0 && Transfer(env, txs, events)
    ensures AcceptedCount(txs, events) <= Rank(env, txs[0])
    decreases |events|
  {
    if events != [] {
      assert Apply(env, txs[0], events[0]) == txs[1];
      if Accepted(txs[0], events[0]) {
        RankDrops(env, txs[0], events[0]);
      }
      forall i | 0 <= i < |events[1..]|
        ensures txs[1..][i].state != Idle && TxEnabled(txs[1..][i], events[1..][i])
                && txs[1..][i + 1] == Apply(env, txs[1..][i], events[1..][i])
      {
        assert txs[i + 1].state != Idle && txs[i + 2] == Apply(env, txs[i + 1], events[i + 1]);
      }
      TransferIsBounded(env, txs[1..], events[1..]);
    }
  }

  function Waits(env: Env, tx: Tx, n: nat): Tx {
    if n == 0 then tx else Apply(env, Waits(env, tx, n - 1), FlowControl(WAIT, 0, 0))
  }

  /** The limit is what the bound needs: a transfer that waits for flow control survives any
      number of WAITs exactly when the limit is disabled. */
  lemma {:induction false} UnlimitedWaitsNeverEnd(env: Env, tx: Tx)
    requires TxInv(env, tx) && tx.state == WaitFC
    ensures env.cfg.maxWaitFrames < 0
            <==> forall n: nat :: Waits(env, tx, n).state == WaitFC
  {
    forall n: nat { WaitsState(env, tx, n); }
    if env.cfg.maxWaitFrames >= 0 {
      assert Waits(env, tx, env.cfg.maxWaitFrames + 1).state == Idle;
    }
  }

  lemma {:induction false} WaitsState(env: Env, tx: Tx, n: nat)
    requires TxInv(env, tx) && tx.state == WaitFC
    ensures var t := Waits(env, tx, n);
            if env.cfg.maxWaitFrames < 0 || tx.waitFrames + n <= env.cfg.maxWaitFrames
            then t.state == WaitFC && t.waitFrames == tx.waitFrames + n && t.buffer == tx.buffer
            else t.state == Idle
  {
    if n > 0 { WaitsState(env, tx, n - 1); }
  }
}
