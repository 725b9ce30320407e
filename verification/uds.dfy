/** The UDS request loop (uds/uds_client.go:118-190, 364-540) with integer time. The environment
    of a request is an oracle: for each attempt, whether the send succeeds, what the loop sees and
    when, and whether the pause before it is cut short. */
module Uds {
  import opened Basics
  import opened Arith

  const NEGATIVE := 0x7F
  const BUSY_REPEAT := 0x21
  const RESPONSE_PENDING := 0x78
  const DEFAULT_PENDING_TIMEOUT := 5_000_000_000
  const DEFAULT_MAX_PENDING := 16

  datatype Options = Options(timeout: int, maxRetries: int, retryDelay: int, pendingTimeout: int, maxPending: int)

  datatype Error =
    | EmptyPayload
    | InvalidOptions
    | InvalidAddressing
    | SendFailed
    | ContextDone
    | ClientClosed
    | TransportClosed
    | RequestTimeout(after: int)
    | TooManyPending(count: nat)
    | Negative(sid: byte, nrc: byte)

  function NormalizeRequestOptions(o: Options): Result<Options, Error> {
    if o.timeout <= 0 || o.maxRetries < 0 || o.retryDelay < 0 then Err(InvalidOptions)
    else
      var p := if o.pendingTimeout == 0 then o.(pendingTimeout := DEFAULT_PENDING_TIMEOUT) else o;
      if p.pendingTimeout < 0 then Err(InvalidOptions)
      else
        var q := if p.maxPending == 0 then p.(maxPending := DEFAULT_MAX_PENDING) else p;
        if q.maxPending < 0 then Err(InvalidOptions) else Ok(q)
  }

  /** What the request loop may rely on. */
  predicate Normal(o: Options) {
    o.timeout > 0 && o.maxRetries >= 0 && o.retryDelay >= 0 && o.pendingTimeout > 0 && o.maxPending > 0
  }

  /** Options are refused exactly when one of them is negative or the timeout is not positive;
      accepted ones are normal, and differ only where a zero asks for five seconds or for 16 pending replies. */
  lemma NormalizeExact(o: Options)
    ensures NormalizeRequestOptions(o).Ok? <==>
            o.timeout > 0 && o.maxRetries >= 0 && o.retryDelay >= 0 && o.pendingTimeout >= 0 && o.maxPending >= 0
    ensures NormalizeRequestOptions(o).Ok? ==> Normal(NormalizeRequestOptions(o).value)
    ensures NormalizeRequestOptions(o).Ok? ==>
              NormalizeRequestOptions(o).value
              == o.(pendingTimeout := if o.pendingTimeout == 0 then 5_000_000_000 else o.pendingTimeout,
                    maxPending := if o.maxPending == 0 then 16 else o.maxPending)
  {
  }

  predicate HasSubFunctionSuppressPositive(sid: byte) {
    sid in {0x10, 0x11, 0x19, 0x27, 0x28, 0x2F, 0x31, 0x3E, 0x85, 0x86, 0x87}
  }

  predicate SuppressesPositive(payload: Bytes)
    requires payload != []
  {
    HasSubFunctionSuppressPositive(payload[0]) && |payload| >= 2 && payload[1] >= 0x80
  }

  predicate IsRetryable(nrc: byte) { nrc == BUSY_REPEAT || nrc == RESPONSE_PENDING }

  // ---------- one attempt ----------

  datatype Event = CtxDone | ClientDone | RecvClosed | Data(bytes: Bytes)

  /** Something the waiting loop sees `at` so long after the send. */
  datatype Seen = Seen(at: nat, event: Event)

  datatype Reply = Foreign | Pending | Refusal(nrc: byte) | Positive

  function Classify(sid: byte, d: Bytes): Reply {
    if |d| >= 3 && d[0] == NEGATIVE then
      if d[1] != sid then Foreign
      else if d[2] == RESPONSE_PENDING then Pending
      else Refusal(d[2])
    else if d == [] || d[0] != (sid + 0x40) % 256 then Foreign
    else Positive
  }

  datatype Outcome = Outcome(response: Option<Bytes>, error: Option<Error>, waited: nat)

  /** The waiting loop from some point on: `deadline` is the armed timer. */
  function Await(sid: byte, suppress: bool, o: Options, events: seq<Seen>, deadline: nat, current: int, pending: nat)
    : Outcome
    requires o.pendingTimeout > 0
    decreases |events|
  {
    if events == [] || events[0].at > deadline then
      Outcome(None, if suppress then None else Some(RequestTimeout(current)), deadline)
    else
      var at, rest := events[0].at, events[1..];
      match events[0].event
      case CtxDone => Outcome(None, Some(ContextDone), at)
      case ClientDone => Outcome(None, Some(ClientClosed), at)
      case RecvClosed => Outcome(None, Some(TransportClosed), at)
      case Data(d) =>
        match Classify(sid, d)
        case Foreign => Await(sid, suppress, o, rest, deadline, current, pending)
        case Pending =>
          if pending + 1 > o.maxPending then Outcome(Some(d), Some(TooManyPending(pending + 1)), at)
          else Await(sid, suppress, o, rest, at + o.pendingTimeout, o.pendingTimeout, pending + 1)
        case Refusal(nrc) => Outcome(Some(d), Some(Negative(sid, nrc)), at)
        case Positive => Outcome(Some(d), None, at)
  }

  /** One attempt's surroundings. `queued` is what still lies in the receive channel when the
      attempt starts; `cut` ends the pause before the attempt early. */
  datatype Attempt = Attempt(queued: seq<Bytes>, sendError: Option<Error>, events: seq<Seen>, cut: Option<Cut>)

  datatype Cut = Cut(at: nat, error: Error)

  function SingleRequest(sid: byte, suppress: bool, o: Options, a: Attempt): Outcome
    requires Normal(o)
  {
    if a.sendError.Some? then Outcome(None, a.sendError, 0)
    else Await(sid, suppress, o, a.events, o.timeout, o.timeout, 0)
  }

  method DrainStackRecv(queue: seq<Bytes>) returns (left: seq<Bytes>)
    ensures left == []
  {
    left := queue;
    while left != []
      decreases |left|
    {
      left := left[1..];
    }
  }

  method SingleRequestLoop(payload: Bytes, suppress: bool, o: Options, a: Attempt) returns (r: Outcome)
    requires payload != [] && Normal(o)
    ensures r == SingleRequest(payload[0], suppress, o, a)
  {
    var queue := DrainStackRecv(a.queued);
    if a.sendError.Some? { return Outcome(None, a.sendError, 0); }
    var deadline: nat, currentTimeout, pendingCount: nat := o.timeout, o.timeout, 0;
    var requestSID := payload[0];
    var expectedResponseSID := (requestSID as int + 0x40) % 256;
    var events := a.events;
    while events != [] && events[0].at <= deadline
      invariant Await(requestSID, suppress, o, events, deadline, currentTimeout, pendingCount)
                == SingleRequest(requestSID, suppress, o, a)
      decreases |events|
    {
      var at, event := events[0].at, events[0].event;
      events := events[1..];
      match event
      case CtxDone => return Outcome(None, Some(ContextDone), at);
      case ClientDone => return Outcome(None, Some(ClientClosed), at);
      case RecvClosed => return Outcome(None, Some(TransportClosed), at);
      case Data(data) =>
        if |data| >= 3 && data[0] == NEGATIVE {
          var nrc, serviceSID := data[2], data[1];
          if serviceSID != requestSID { continue; }
          if nrc == RESPONSE_PENDING {
            pendingCount := pendingCount + 1;
            if pendingCount > o.maxPending { return Outcome(Some(data), Some(TooManyPending(pendingCount)), at); }
            deadline := at + o.pendingTimeout;
            currentTimeout := o.pendingTimeout;
            continue;
          }
          return Outcome(Some(data), Some(Negative(serviceSID, nrc)), at);
        }
        if |data| == 0 || data[0] != expectedResponseSID { continue; }
        return Outcome(Some(data), None, at);
    }
    if suppress { return Outcome(None, None, deadline); }
    return Outcome(None, Some(RequestTimeout(currentTimeout)), deadline);
  }

  // ---------- what one attempt promises ----------

  predicate IsAnswer(sid: byte, d: Bytes) { d != [] && d[0] == (sid + 0x40) % 256 }

  /** An outcome means what it says. */
  predicate Sound(sid: byte, suppress: bool, o: Options, r: Outcome) {
    && (r.error.None? ==> if r.response.Some? then IsAnswer(sid, r.response.value) else suppress)
    && (r.error.Some? && r.error.value.Negative? ==>
         && r.response.Some? && |r.response.value| >= 3
         && r.response.value[..3] == [NEGATIVE, sid, r.error.value.nrc]
         && r.error.value.sid == sid && r.error.value.nrc != RESPONSE_PENDING)
    && (r.error.Some? && r.error.value.TooManyPending? ==> r.error.value.count == o.maxPending + 1)
    && (r.error.Some? && r.error.value.RequestTimeout? ==> !suppress)
  }

  /** Each pending reply within the limit moves the deadline by at most one pending timeout. */
  lemma {:induction false} AwaitSound(sid: byte, suppress: bool, o: Options, events: seq<Seen>,
                                      deadline: nat, current: int, pending: nat)
    requires Normal(o) && pending <= o.maxPending
    ensures var r := Await(sid, suppress, o, events, deadline, current, pending);
            Sound(sid, suppress, o, r) && r.waited <= deadline + (o.maxPending - pending) * o.pendingTimeout
    decreases |events|
  {
    MulMono(0, o.maxPending - pending, o.pendingTimeout);
    if events != [] && events[0].at <= deadline && events[0].event.Data? {
      var d := events[0].event.bytes;
      match Classify(sid, d)
      case Foreign => AwaitSound(sid, suppress, o, events[1..], deadline, current, pending);
      case Pending =>
        if pending < o.maxPending {
          AwaitSound(sid, suppress, o, events[1..], events[0].at + o.pendingTimeout, o.pendingTimeout, pending + 1);
          assert (o.maxPending - pending) * o.pendingTimeout
              == (o.maxPending - (pending + 1)) * o.pendingTimeout + o.pendingTimeout;
        }
      case Refusal(nrc) => assert d[..3] == [NEGATIVE, sid, nrc];
      case Positive =>
    }
  }

  /** A message for somebody else never changes the outcome, wherever it arrives. */
  lemma {:induction false} ForeignIgnored(sid: byte, suppress: bool, o: Options, before: seq<Seen>, at: nat, d: Bytes,
                                          after: seq<Seen>, deadline: nat, current: int, pending: nat)
    requires o.pendingTimeout > 0 && Classify(sid, d) == Foreign
    requires after != [] ==> at <= after[0].at
    ensures Await(sid, suppress, o, before + [Seen(at, Data(d))] + after, deadline, current, pending)
            == Await(sid, suppress, o, before + after, deadline, current, pending)
    decreases |before|
  {
    var foreign := Seen(at, Data(d));
    if before == [] {
      assert [] + [foreign] + after == [foreign] + after && [] + after == after;
      assert ([foreign] + after)[1..] == after;
    } else {
      var e, rest := before[0], before[1..];
      assert (before + [foreign] + after)[1..] == rest + [foreign] + after;
      assert (before + after)[1..] == rest + after;
      ForeignIgnored(sid, suppress, o, rest, at, d, after, deadline, current, pending);
      if e.event.Data? {
        ForeignIgnored(sid, suppress, o, rest, at, d, after, e.at + o.pendingTimeout, o.pendingTimeout, pending + 1);
      }
    }
  }

  /** Pending replies one after another, each before its deadline. */
  predicate PendingChain(sid: byte, o: Options, events: seq<Seen>, deadline: nat)
    requires o.pendingTimeout > 0
    decreases |events|
  {
    events == [] ||
    (&& events[0].at <= deadline && events[0].event.Data? && Classify(sid, events[0].event.bytes) == Pending
     && PendingChain(sid, o, events[1..], events[0].at + o.pendingTimeout))
  }

  function LastDeadline(o: Options, events: seq<Seen>, deadline: nat): nat
    requires o.pendingTimeout > 0
  {
    if events == [] then deadline else events[|events| - 1].at + o.pendingTimeout
  }

  lemma {:induction false} ChainIsData(sid: byte, o: Options, chain: seq<Seen>, deadline: nat, i: nat)
    requires o.pendingTimeout > 0 && PendingChain(sid, o, chain, deadline) && i < |chain|
    ensures chain[i].event.Data?
    decreases i
  {
    if i > 0 { ChainIsData(sid, o, chain[1..], chain[0].at + o.pendingTimeout, i - 1); }
  }

  /** A final answer after a chain of pending replies gets through exactly when the chain is no
      longer than the limit; otherwise the first reply beyond the limit ends the attempt. */
  lemma {:induction false} PendingLimit(sid: byte, suppress: bool, o: Options, chain: seq<Seen>, at: nat, d: Bytes,
                                        deadline: nat, current: int, pending: nat)
    requires Normal(o) && pending <= o.maxPending && PendingChain(sid, o, chain, deadline)
    requires Classify(sid, d) == Positive && at <= LastDeadline(o, chain, deadline)
    ensures pending + |chain| > o.maxPending ==> chain[o.maxPending - pending].event.Data?
    ensures var r := Await(sid, suppress, o, chain + [Seen(at, Data(d))], deadline, current, pending);
            if pending + |chain| <= o.maxPending then r == Outcome(Some(d), None, at)
            else
              var excess := chain[o.maxPending - pending];
              r == Outcome(Some(excess.event.bytes), Some(TooManyPending(o.maxPending + 1)), excess.at)
    decreases |chain|
  {
    if chain == [] {
      assert chain + [Seen(at, Data(d))] == [Seen(at, Data(d))];
    } else {
      if pending + |chain| > o.maxPending { ChainIsData(sid, o, chain, deadline, o.maxPending - pending); }
      assert (chain + [Seen(at, Data(d))])[1..] == chain[1..] + [Seen(at, Data(d))];
      if pending < o.maxPending {
        PendingLimit(sid, suppress, o, chain[1..], at, d,
                     chain[0].at + o.pendingTimeout, o.pendingTimeout, pending + 1);
      }
    }
  }

  /** Every answer to a service other than 0x3F is taken; an answer to 0x3F looks like a negative
      response and is taken only when it is too short to be one. */
  lemma AnswersTaken(sid: byte, d: Bytes)
    ensures Classify(sid, d) == Positive <==> IsAnswer(sid, d) && (sid == 0x3F ==> |d| < 3)
  {
  }

  // ---------- the retry loop ----------

  /** The attempts made, in order, and what the caller gets. */
  datatype Trace = Trace(attempts: seq<Outcome>, response: Option<Bytes>, error: Option<Error>, waited: nat)

  predicate Retries(r: Outcome, attempt: nat, o: Options) {
    r.error.Some? && r.error.value.Negative? && IsRetryable(r.error.value.nrc) && attempt < o.maxRetries
  }

  /** The pause before a retry: how long it takes and the error that cuts it short. */
  function Pause(o: Options, a: Attempt): (nat, Option<Error>)
    requires o.retryDelay >= 0
  {
    if o.retryDelay > 0 && a.cut.Some? && a.cut.value.at <= o.retryDelay then (a.cut.value.at, Some(a.cut.value.error))
    else (o.retryDelay, None)
  }

  /** A trace with earlier attempts and the time they took put in front. */
  function After(earlier: seq<Outcome>, took: nat, t: Trace): Trace {
    t.(attempts := earlier + t.attempts, waited := took + t.waited)
  }

  lemma AfterAfter(earlier: seq<Outcome>, took: nat, r: Outcome, more: nat, t: Trace)
    ensures After(earlier, took, After([r], more, t)) == After(earlier + [r], took + more, t)
  {
  }

  function Request(sid: byte, suppress: bool, o: Options, env: nat -> Attempt, attempt: nat): Trace
    requires Normal(o) && attempt <= o.maxRetries
    decreases o.maxRetries - attempt
  {
    var (paused, cut) := PauseBefore(o, env(attempt), attempt);
    if cut.Some? then Trace([], None, cut, paused)
    else
      var r := SingleRequest(sid, suppress, o, env(attempt));
      if Retries(r, attempt, o) then
        After([r], paused + r.waited, Request(sid, suppress, o, env, attempt + 1))
      else Trace([r], r.response, r.error, paused + r.waited)
  }

  /** The pause before the attempt, then the attempt. */
  function PauseBefore(o: Options, a: Attempt, attempt: nat): (nat, Option<Error>)
    requires o.retryDelay >= 0
  {
    if attempt > 0 then Pause(o, a) else (0, None)
  }

  method WaitForRetry(o: Options, a: Attempt, attempt: nat) returns (paused: nat, cut: Option<Error>)
    requires o.retryDelay >= 0
    ensures (paused, cut) == PauseBefore(o, a, attempt)
  {
    if attempt == 0 || o.retryDelay == 0 { return 0, None; }
    if a.cut.Some? && a.cut.value.at <= o.retryDelay { return a.cut.value.at, Some(a.cut.value.error); }
    return o.retryDelay, None;
  }

  method RequestLoop(payload: Bytes, o: Options, env: nat -> Attempt) returns (t: Trace)
    requires payload != [] && Normal(o)
    ensures t == Request(payload[0], SuppressesPositive(payload), o, env, 0)
  {
    var requestSID, suppressPositive := payload[0], SuppressesPositive(payload);
    ghost var whole := Request(requestSID, suppressPositive, o, env, 0);
    var attempts: seq<Outcome>, waited: nat, attempt: nat := [], 0, 0;
    while attempt <= o.maxRetries
      invariant attempt <= o.maxRetries
      invariant whole == After(attempts, waited, Request(requestSID, suppressPositive, o, env, attempt))
      decreases o.maxRetries - attempt
    {
      var paused, cut := WaitForRetry(o, env(attempt), attempt);
      if cut.Some? { return Trace(attempts, None, cut, waited + paused); }
      var r := SingleRequestLoop(payload, suppressPositive, o, env(attempt));
      if !Retries(r, attempt, o) {
        return Trace(attempts + [r], r.response, r.error, waited + (paused + r.waited));
      }
      AfterAfter(attempts, waited, r, paused + r.waited, Request(requestSID, suppressPositive, o, env, attempt + 1));
      attempts, waited := attempts + [r], waited + (paused + r.waited);
      attempt := attempt + 1;
    }
    assert false;
  }

  /** Whether a request is made at all: a payload, options and an address it can use. */
  function Refused(payload: Bytes, o: Options, addressError: Option<Error>): Option<Error> {
    if payload == [] then Some(EmptyPayload)
    else if NormalizeRequestOptions(o).Err? then Some(InvalidOptions)
    else addressError
  }

  /** A request is made exactly for a payload with options in range and a usable address; otherwise the error
      names the first of the three that fails. */
  lemma RefusedExact(payload: Bytes, o: Options, addressError: Option<Error>)
    ensures Refused(payload, o, addressError) == None <==>
            payload != [] && NormalizeRequestOptions(o).Ok? && addressError == None
    ensures payload == [] ==> Refused(payload, o, addressError) == Some(EmptyPayload)
    ensures payload != [] && o.timeout <= 0 ==> Refused(payload, o, addressError) == Some(InvalidOptions)
  {
  }

  method RequestWithContext(payload: Bytes, opts: Options, addressError: Option<Error>, env: nat -> Attempt)
    returns (t: Trace)
    ensures match Refused(payload, opts, addressError)
            case Some(e) => t == Trace([], None, Some(e), 0)
            case None => t == Request(payload[0], SuppressesPositive(payload),
                                      NormalizeRequestOptions(opts).value, env, 0)
  {
    if payload == [] { return Trace([], None, Some(EmptyPayload), 0); }
    var normalized := NormalizeRequestOptions(opts);
    if normalized.Err? { return Trace([], None, Some(InvalidOptions), 0); }
    if addressError.Some? { return Trace([], None, addressError, 0); }
    t := RequestLoop(payload, normalized.value, env);
  }

  // ---------- what a request promises ----------

  function PerAttempt(o: Options): int { o.timeout + o.maxPending * o.pendingTimeout }

  /** The transport's own errors are none of the errors the request loop makes. */
  predicate TransportError(a: Attempt) {
    a.sendError.Some? ==>
      var e := a.sendError.value; !e.Negative? && !e.TooManyPending? && !e.RequestTimeout?
  }

  lemma SingleSound(sid: byte, suppress: bool, o: Options, a: Attempt)
    requires Normal(o) && TransportError(a)
    ensures var r := SingleRequest(sid, suppress, o, a);
            Sound(sid, suppress, o, r) && r.waited <= PerAttempt(o)
  {
    MulMono(0, o.maxPending, o.pendingTimeout);
    if a.sendError.None? { AwaitSound(sid, suppress, o, a.events, o.timeout, o.timeout, 0); }
  }

  /** At most one send per attempt and none beyond the last retry; the k-th attempt is the k-th
      thing the environment offers. */
  lemma {:induction false} AttemptsMade(sid: byte, suppress: bool, o: Options, env: nat -> Attempt, k: nat)
    requires Normal(o) && k <= o.maxRetries
    ensures var t := Request(sid, suppress, o, env, k);
            && |t.attempts| <= o.maxRetries + 1 - k
            && forall i :: 0 <= i < |t.attempts| ==> t.attempts[i] == SingleRequest(sid, suppress, o, env(k + i))
    decreases o.maxRetries - k
  {
    if Retries(SingleRequest(sid, suppress, o, env(k)), k, o) {
      AttemptsMade(sid, suppress, o, env, k + 1);
      var t := Request(sid, suppress, o, env, k);
      var rest := Request(sid, suppress, o, env, k + 1);
      forall i | 0 <= i < |t.attempts| ensures t.attempts[i] == SingleRequest(sid, suppress, o, env(k + i)) {
        if i > 0 { assert t.attempts[i] == rest.attempts[i - 1] && k + i == k + 1 + (i - 1); }
      }
    }
  }

  /** A retryable outcome is a busy-repeat refusal: a pending reply never surfaces as a refusal. */
  lemma RetryMeansBusy(sid: byte, suppress: bool, o: Options, a: Attempt, attempt: nat)
    requires Normal(o) && TransportError(a) && Retries(SingleRequest(sid, suppress, o, a), attempt, o)
    ensures SingleRequest(sid, suppress, o, a).error == Some(Negative(sid, BUSY_REPEAT))
  {
    SingleSound(sid, suppress, o, a);
  }

  predicate AllButLastBusy(sid: byte, attempts: seq<Outcome>) {
    forall i :: 0 <= i < |attempts| - 1 ==> attempts[i].error == Some(Negative(sid, BUSY_REPEAT))
  }

  /** Every attempt but the last was refused with busy-repeat. */
  lemma {:induction false} RetriesOnlyWhenBusy(sid: byte, suppress: bool, o: Options, env: nat -> Attempt, k: nat)
    requires Normal(o) && k <= o.maxRetries && forall i :: TransportError(env(i))
    ensures AllButLastBusy(sid, Request(sid, suppress, o, env, k).attempts)
    decreases o.maxRetries - k
  {
    var r := SingleRequest(sid, suppress, o, env(k));
    if Retries(r, k, o) {
      RetriesOnlyWhenBusy(sid, suppress, o, env, k + 1);
      RetryMeansBusy(sid, suppress, o, env(k), k);
      var rest := Request(sid, suppress, o, env, k + 1).attempts;
      assert AllButLastBusy(sid, [r] + rest);
    }
  }

  /** The caller gets the last attempt's own response and error, and that attempt was not to be
      retried; or a pause was cut and the caller gets that error and no response. */
  predicate Ended(t: Trace, o: Options, k: nat, env: nat -> Attempt)
    requires Normal(o)
  {
    var n := |t.attempts|;
    || (n > 0 && t.response == t.attempts[n - 1].response && t.error == t.attempts[n - 1].error
        && !Retries(t.attempts[n - 1], k + n - 1, o))
    || (k + n <= o.maxRetries && k + n > 0 && t.response.None?
        && t.error.Some? && t.error == Pause(o, env(k + n)).1)
  }

  lemma {:induction false} RequestEnds(sid: byte, suppress: bool, o: Options, env: nat -> Attempt, k: nat)
    requires Normal(o) && k <= o.maxRetries
    ensures Ended(Request(sid, suppress, o, env, k), o, k, env)
    decreases o.maxRetries - k
  {
    if Retries(SingleRequest(sid, suppress, o, env(k)), k, o) {
      RequestEnds(sid, suppress, o, env, k + 1);
      var t, rest := Request(sid, suppress, o, env, k), Request(sid, suppress, o, env, k + 1);
      if |t.attempts| > 1 { assert t.attempts[|t.attempts| - 1] == rest.attempts[|rest.attempts| - 1]; }
    }
  }

  /** x added up n times. */
  function Repeated(n: nat, x: int): int { if n == 0 then 0 else x + Repeated(n - 1, x) }

  lemma {:induction false} RepeatedIsProduct(n: nat, x: int)
    ensures Repeated(n, x) == n * x
  {
    if n > 0 { RepeatedIsProduct(n - 1, x); }
  }

  /** Each attempt waits at most `per`, and each retry at most one pause more. */
  lemma {:induction false} WaitingBounded(sid: byte, suppress: bool, o: Options, env: nat -> Attempt, k: nat, per: nat)
    requires Normal(o) && k <= o.maxRetries
    requires forall i :: SingleRequest(sid, suppress, o, env(i)).waited <= per
    ensures Request(sid, suppress, o, env, k).waited
            <= Repeated(o.maxRetries - k, per + o.retryDelay) + per + (if k > 0 then o.retryDelay else 0)
    decreases o.maxRetries - k
  {
    assert 0 <= Repeated(o.maxRetries - k, per + o.retryDelay) by {
      RepeatedIsProduct(o.maxRetries - k, per + o.retryDelay);
      MulMono(0, o.maxRetries - k, per + o.retryDelay);
    }
    if Retries(SingleRequest(sid, suppress, o, env(k)), k, o) {
      WaitingBounded(sid, suppress, o, env, k + 1, per);
    }
  }

  /** For every environment: at most MaxRetries + 1 sends, a retry only after NRC 0x21, a total wait
      within the documented budget, and a response without an error is the answer to this service
      (or there is none because a positive response was suppressed). */
  lemma RequestBound(sid: byte, suppress: bool, o: Options, env: nat -> Attempt)
    requires Normal(o) && forall i :: TransportError(env(i))
    ensures var t := Request(sid, suppress, o, env, 0);
            && |t.attempts| <= o.maxRetries + 1
            && AllButLastBusy(sid, t.attempts)
            && t.waited <= (o.maxRetries + 1) * PerAttempt(o) + o.maxRetries * o.retryDelay
            && (t.error.None? ==> if t.response.Some? then IsAnswer(sid, t.response.value) else suppress)
  {
    AttemptsMade(sid, suppress, o, env, 0);
    RetriesOnlyWhenBusy(sid, suppress, o, env, 0);
    AnswerIsSound(sid, suppress, o, env);
    WaitingWithinBudget(sid, suppress, o, env);
  }

  lemma WaitingWithinBudget(sid: byte, suppress: bool, o: Options, env: nat -> Attempt)
    requires Normal(o) && forall i :: TransportError(env(i))
    ensures Request(sid, suppress, o, env, 0).waited
            <= (o.maxRetries + 1) * PerAttempt(o) + o.maxRetries * o.retryDelay
  {
    var per := PerAttempt(o);
    MulMono(0, o.maxPending, o.pendingTimeout);
    forall i ensures SingleRequest(sid, suppress, o, env(i)).waited <= per {
      SingleSound(sid, suppress, o, env(i));
    }
    WaitingBounded(sid, suppress, o, env, 0, per);
    RepeatedIsProduct(o.maxRetries, per + o.retryDelay);
    Budget(o.maxRetries, per, o.retryDelay);
  }

  lemma AnswerIsSound(sid: byte, suppress: bool, o: Options, env: nat -> Attempt)
    requires Normal(o) && forall i :: TransportError(env(i))
    ensures var t := Request(sid, suppress, o, env, 0);
            t.error.None? ==> if t.response.Some? then IsAnswer(sid, t.response.value) else suppress
  {
    var t := Request(sid, suppress, o, env, 0);
    RequestEnds(sid, suppress, o, env, 0);
    if t.error.None? {
      AttemptsMade(sid, suppress, o, env, 0);
      LastIsSound(sid, suppress, o, env(|t.attempts| - 1), t);
    }
  }

  /** The answer of a last attempt is the answer. */
  lemma LastIsSound(sid: byte, suppress: bool, o: Options, a: Attempt, t: Trace)
    requires Normal(o) && TransportError(a) && t.error.None? && t.attempts != []
    requires t.attempts[|t.attempts| - 1] == SingleRequest(sid, suppress, o, a)
    requires t.response == t.attempts[|t.attempts| - 1].response && t.error == t.attempts[|t.attempts| - 1].error
    ensures if t.response.Some? then IsAnswer(sid, t.response.value) else suppress
  {
    SingleSound(sid, suppress, o, a);
  }

  lemma Budget(retries: nat, per: int, delay: int)
    ensures retries * (per + delay) + per == (retries + 1) * per + retries * delay
  {
  }
}
