/** How far the retries of a UDS request go (uds/uds_client.go:388-432, 457-503), in terms of what the ECU
    answers. */
module UdsRetries {
  import opened Basics
  import opened Uds

  /** An attempt that the ECU refuses as busy. */
  predicate Busy(sid: byte, r: Outcome) { r.error == Some(Negative(sid, 0x21)) }

  /** The pause before the attempt runs to its end. */
  predicate WholePause(o: Options, a: Attempt) {
    a.cut.None? || o.retryDelay == 0 || a.cut.value.at > o.retryDelay
  }

  /** The attempts from `k` on are busy until `n`, and the pauses before them run to their end. */
  ghost predicate BusyUntil(sid: byte, suppress: bool, o: Options, env: nat -> Attempt, k: nat, n: nat)
    requires Normal(o)
  {
    && (forall i :: k <= i < n ==> Busy(sid, SingleRequest(sid, suppress, o, env(i))))
    && (forall i :: 0 < i < n ==> WholePause(o, env(i)))
  }

  function WaitedFor(sid: byte, suppress: bool, o: Options, env: nat -> Attempt, k: nat, n: nat): nat
    requires Normal(o) && k <= n
    decreases n - k
  {
    SingleRequest(sid, suppress, o, env(k)).waited + (if k > 0 then o.retryDelay else 0)
    + if k == n then 0 else WaitedFor(sid, suppress, o, env, k + 1, n)
  }

  /** An ECU that is busy until `n` and then gives its final reply `r`: what the caller gets of it from the
      `k`-th attempt on. */
  predicate Limited(sid: byte, o: Options, k: nat, n: nat, r: Outcome, t: Trace) {
    if n <= o.maxRetries
    then t.response == r.response && t.error == r.error && |t.attempts| == n + 1 - k
    else t.error == Some(Negative(sid, 0x21)) && |t.attempts| == o.maxRetries + 1 - k
  }

  lemma {:induction false} LimitedFrom(sid: byte, suppress: bool, o: Options, env: nat -> Attempt, k: nat, n: nat)
    requires Normal(o) && k <= o.maxRetries && k <= n && BusyUntil(sid, suppress, o, env, k, n) && WholePause(o, env(n))
    requires var r := SingleRequest(sid, suppress, o, env(n)); TransportError(env(n)) && !Busy(sid, r)
    ensures Limited(sid, o, k, n, SingleRequest(sid, suppress, o, env(n)), Request(sid, suppress, o, env, k))
    decreases n - k
  {
    SingleSound(sid, suppress, o, env(n));
    if k < n && k < o.maxRetries { LimitedFrom(sid, suppress, o, env, k + 1, n); }
  }

  lemma {:induction false} WaitsFrom(sid: byte, suppress: bool, o: Options, env: nat -> Attempt, k: nat, n: nat)
    requires Normal(o) && k <= o.maxRetries && k <= n && BusyUntil(sid, suppress, o, env, k, n) && WholePause(o, env(n))
    requires var r := SingleRequest(sid, suppress, o, env(n)); TransportError(env(n)) && !Busy(sid, r)
    ensures Request(sid, suppress, o, env, k).waited == WaitedFor(sid, suppress, o, env, k, Min(n, o.maxRetries))
    decreases n - k
  {
    SingleSound(sid, suppress, o, env(n));
    if k < n && k < o.maxRetries { WaitsFrom(sid, suppress, o, env, k + 1, n); }
  }

  /** An ECU that is busy `n` times and then gives its final reply, whichever it is: the caller gets that
      reply if and only if `n` retries are allowed. Otherwise exactly all of them have been made and the
      caller gets the busy refusal. Every retry waits the whole delay. */
  lemma RetryLimit(sid: byte, suppress: bool, o: Options, env: nat -> Attempt, n: nat)
    requires Normal(o) && BusyUntil(sid, suppress, o, env, 0, n) && WholePause(o, env(n))
    requires var r := SingleRequest(sid, suppress, o, env(n)); TransportError(env(n)) && !Busy(sid, r)
    ensures var t, r := Request(sid, suppress, o, env, 0), SingleRequest(sid, suppress, o, env(n));
            && Limited(sid, o, 0, n, r, t)
            && t.waited == WaitedFor(sid, suppress, o, env, 0, Min(n, o.maxRetries))
  {
    LimitedFrom(sid, suppress, o, env, 0, n);
    WaitsFrom(sid, suppress, o, env, 0, n);
  }

  /** A pause that is cut ends the request there: with that error, without a response, and without another
      attempt. */
  lemma {:induction false} CutPauseEnds(sid: byte, suppress: bool, o: Options, env: nat -> Attempt, k: nat, n: nat)
    requires Normal(o) && k < n <= o.maxRetries && BusyUntil(sid, suppress, o, env, k, n) && !WholePause(o, env(n))
    ensures var t, cut := Request(sid, suppress, o, env, k), env(n).cut.value;
            && t.response == None && t.error == Some(cut.error) && |t.attempts| == n - k
            && t.waited == WaitedFor(sid, suppress, o, env, k, n - 1) + cut.at
    decreases n - k
  {
    if k + 1 < n { CutPauseEnds(sid, suppress, o, env, k + 1, n); }
  }

  // ---------- what the ECU answers ----------

  /** The one reply of an ECU, in time. */
  function Replies(at: nat, d: Bytes): Attempt { Attempt([], None, [Seen(at, Data(d))], None) }

  const Silent := Attempt([], None, [], None)

  /** A negative response to this service, other than response-pending, ends the attempt with its code; the
      positive one ends it without an error; and silence is a time-out, unless the caller has asked for
      no positive response: then it is the success. */
  lemma OneReply(sid: byte, suppress: bool, o: Options, at: nat, nrc: byte, tail: Bytes)
    requires Normal(o) && at <= o.timeout && nrc != 0x78
    ensures var d := [0x7F, sid, nrc] + tail;
            SingleRequest(sid, suppress, o, Replies(at, d)) == Outcome(Some(d), Some(Negative(sid, nrc)), at)
    ensures var d := [(sid as int + 0x40) % 256] + tail;
            sid != 0x3F ==> SingleRequest(sid, suppress, o, Replies(at, d)) == Outcome(Some(d), None, at)
    ensures SingleRequest(sid, suppress, o, Silent)
            == Outcome(None, if suppress then None else Some(RequestTimeout(o.timeout)), o.timeout)
  {
  }

  /** A send that fails, a context or a client that is done, and a transport that has closed end the attempt at
      once, each with its own error. */
  lemma EndedFromOutside(sid: byte, suppress: bool, o: Options, at: nat, rest: seq<Seen>)
    requires Normal(o) && at <= o.timeout
    ensures SingleRequest(sid, suppress, o, Attempt([], None, [Seen(at, CtxDone)] + rest, None))
            == Outcome(None, Some(ContextDone), at)
    ensures SingleRequest(sid, suppress, o, Attempt([], None, [Seen(at, ClientDone)] + rest, None))
            == Outcome(None, Some(ClientClosed), at)
    ensures SingleRequest(sid, suppress, o, Attempt([], None, [Seen(at, RecvClosed)] + rest, None))
            == Outcome(None, Some(TransportClosed), at)
    ensures forall e :: SingleRequest(sid, suppress, o, Attempt([], Some(e), rest, None)) == Outcome(None, Some(e), 0)
  {
  }

  /** A chain of pending replies within the limit leaves the attempt as if it had just begun to wait, with the
      pending time-out from the last of them on. */
  lemma {:induction false} PendingRestarts(sid: byte, suppress: bool, o: Options, chain: seq<Seen>, rest: seq<Seen>,
                                           deadline: nat, current: int, pending: nat)
    requires Normal(o) && pending + |chain| <= o.maxPending && PendingChain(sid, o, chain, deadline)
    ensures Await(sid, suppress, o, chain + rest, deadline, current, pending)
            == Await(sid, suppress, o, rest, LastDeadline(o, chain, deadline),
                     if chain == [] then current else o.pendingTimeout, pending + |chain|)
    decreases |chain|
  {
    if chain == [] {
      assert chain + rest == rest;
    } else {
      assert (chain + rest)[1..] == chain[1..] + rest;
      PendingRestarts(sid, suppress, o, chain[1..], rest,
                      chain[0].at + o.pendingTimeout, o.pendingTimeout, pending + 1);
    }
  }

  /** So an ECU that announces its answer and then falls silent is given up one pending time-out later. */
  lemma SilentAfterPending(sid: byte, suppress: bool, o: Options, chain: seq<Seen>)
    requires Normal(o) && 0 < |chain| <= o.maxPending && PendingChain(sid, o, chain, o.timeout)
    ensures SingleRequest(sid, suppress, o, Attempt([], None, chain, None))
            == Outcome(None, if suppress then None else Some(RequestTimeout(o.pendingTimeout)),
                       chain[|chain| - 1].at + o.pendingTimeout)
  {
    PendingRestarts(sid, suppress, o, chain, [], o.timeout, o.timeout, 0);
    assert chain + [] == chain;
  }

  /** What silence means for a whole request: only a service with a sub-function whose top bit is set, in a
      payload of two bytes at least, counts as answered. */
  lemma SilenceIsSuccessIff(payload: Bytes, o: Options, env: nat -> Attempt)
    requires payload != [] && Normal(o) && env(0) == Silent
    ensures var t := Request(payload[0], SuppressesPositive(payload), o, env, 0);
            && |t.attempts| == 1 && t.response == None && t.waited == o.timeout
            && (t.error == None <==>
                  && |payload| >= 2 && 128 <= payload[1] < 256
                  && payload[0] in {0x10, 0x11, 0x19, 0x27, 0x28, 0x2F, 0x31, 0x3E, 0x85, 0x86, 0x87})
            && (t.error != None ==> t.error == Some(RequestTimeout(o.timeout)))
  {
    OneReply(payload[0], SuppressesPositive(payload), o, 0, 0, []);
  }
}
