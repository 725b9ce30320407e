/** The receive fan-out (driver/internal/backend/fanout.go:41-100). A section under the write lock
    is one step; a dispatch holds the read lock over several steps, one send each; `closeAll`
    closes the channels it took after it has released the lock, so those steps interleave with
    everything else. */
module Fanout {
  import opened Basics
  import Can

  /** A subscriber's channel. `received`, `dropped` and `dispatched` are the record: what the
      subscriber took, how many sends found no room, and what was dispatched while it was subscribed. */
  datatype Chan = Chan(capacity: nat, buffer: seq<Can.Frame>, closed: bool,
                       received: seq<Can.Frame>, dropped: nat, dispatched: seq<Can.Frame>)

  /** `sending` is the dispatch in progress: its frame and the channels still to be served.
      `closing` holds the channels that `closeAll` took and has not closed yet. */
  datatype State = State(chans: seq<Chan>, subs: set<nat>, closed: bool,
                         sending: Option<Sending>, closing: set<nat>, panicked: bool)

  datatype Sending = Sending(msg: Can.Frame, remaining: set<nat>)

  const Start := State([], {}, false, None, {}, false)

  /** `receiving` says that the subscriber is waiting in a receive at that moment. */
  datatype Action =
    | Subscribe(buffer: int)
    | Unsubscribe(id: nat)
    | DispatchBegin(msg: Can.Frame)
    | DispatchSend(id: nat, receiving: bool)
    | DispatchEnd
    | CloseAllTake
    | CloseOne(id: nat)
    | Receive(id: nat)

  /** The write lock needs the read lock released. */
  predicate Enabled(s: State, a: Action) {
    match a
    case Subscribe(_) => s.sending.None?
    case Unsubscribe(id) => s.sending.None? && id < |s.chans|
    case DispatchBegin(_) => s.sending.None?
    case DispatchSend(id, receiving) =>
      s.sending.Some? && id in s.sending.value.remaining && id < |s.chans| && (receiving ==> s.chans[id].buffer == [])
    case DispatchEnd => s.sending.Some? && s.sending.value.remaining == {}
    case CloseAllTake => s.sending.None?
    case CloseOne(id) => id in s.closing && id < |s.chans|
    case Receive(id) => id < |s.chans| && s.chans[id].buffer != []
  }

  /** Closing a closed channel panics. */
  function Close(s: State, id: nat): State
    requires id < |s.chans|
  {
    if s.chans[id].closed then s.(panicked := true)
    else s.(chans := s.chans[id := s.chans[id].(closed := true)])
  }

  /** The non-blocking send: to the waiting subscriber, else to the buffer, else nowhere. */
  function Offer(c: Chan, msg: Can.Frame, receiving: bool): Chan {
    if receiving then c.(received := c.received + [msg])
    else if |c.buffer| < c.capacity then c.(buffer := c.buffer + [msg])
    else c.(dropped := c.dropped + 1)
  }

  /** The frame is on its way to the channel. */
  function Announced(c: Chan, msg: Can.Frame): Chan { c.(dispatched := c.dispatched + [msg]) }

  function AnnounceAll(s: State, msg: Can.Frame): seq<Chan> {
    seq(|s.chans|, i requires 0 <= i < |s.chans| =>
      if i in s.subs then Announced(s.chans[i], msg) else s.chans[i])
  }

  function Step(s: State, a: Action): State
    requires Enabled(s, a)
  {
    match a
    case Subscribe(buffer) =>
      var ch := Chan(if buffer < 0 then 0 else buffer, [], s.closed, [], 0, []);
      s.(chans := s.chans + [ch], subs := if s.closed then s.subs else s.subs + {|s.chans|})
    case Unsubscribe(id) =>
      if id in s.subs then Close(s.(subs := s.subs - {id}), id) else s
    case DispatchBegin(msg) =>
      s.(chans := AnnounceAll(s, msg), sending := Some(Sending(msg, s.subs)))
    case DispatchSend(id, receiving) =>
      var d := s.sending.value;
      if s.chans[id].closed then s.(panicked := true)
      else s.(chans := s.chans[id := Offer(s.chans[id], d.msg, receiving)],
              sending := Some(Sending(d.msg, d.remaining - {id})))
    case DispatchEnd => s.(sending := None)
    case CloseAllTake =>
      if s.closed then s else s.(closed := true, closing := s.subs, subs := {})
    case CloseOne(id) => Close(s.(closing := s.closing - {id}), id)
    case Receive(id) =>
      var c := s.chans[id];
      s.(chans := s.chans[id := c.(buffer := c.buffer[1..], received := c.received + [c.buffer[0]])])
  }

  // ---------- the invariant ----------

  /** `part` is `whole` with `missing` entries left out, order kept. */
  predicate Keeps(part: seq<Can.Frame>, whole: seq<Can.Frame>, missing: nat) {
    if whole == [] then part == [] && missing == 0
    else
      var front := whole[..|whole| - 1];
      || (part != [] && part[|part| - 1] == whole[|whole| - 1] && Keeps(part[..|part| - 1], front, missing))
      || (missing > 0 && Keeps(part, front, missing - 1))
  }

  function Accepted(c: Chan): seq<Can.Frame> { c.received + c.buffer }

  /** What the channel has been served of its dispatched frames: all, or all but the one in progress. */
  predicate Served(c: Chan, pending: Option<Can.Frame>) {
    match pending
    case None => Keeps(Accepted(c), c.dispatched, c.dropped)
    case Some(msg) =>
      && c.dispatched != [] && c.dispatched[|c.dispatched| - 1] == msg
      && Keeps(Accepted(c), c.dispatched[..|c.dispatched| - 1], c.dropped)
  }

  function Pending(s: State, id: nat): Option<Can.Frame> {
    if s.sending.Some? && id in s.sending.value.remaining then Some(s.sending.value.msg) else None
  }

  predicate ChanOk(s: State, id: nat)
    requires id < |s.chans|
  {
    && (s.chans[id].closed <==> id !in s.subs && id !in s.closing)
    && Served(s.chans[id], Pending(s, id))
    && |s.chans[id].buffer| <= s.chans[id].capacity
  }

  ghost predicate SetsOk(s: State) {
    && !s.panicked && s.subs !! s.closing
    && (forall id :: id in s.subs || id in s.closing ==> id < |s.chans|)
    && (s.sending.Some? ==> s.sending.value.remaining <= s.subs)
    && (s.closed ==> s.subs == {}) && (!s.closed ==> s.closing == {})
  }

  ghost predicate Inv(s: State) {
    SetsOk(s) && forall id :: 0 <= id < |s.chans| ==> ChanOk(s, id)
  }

  lemma KeepsAccept(part: seq<Can.Frame>, whole: seq<Can.Frame>, missing: nat, msg: Can.Frame)
    requires Keeps(part, whole, missing)
    ensures Keeps(part + [msg], whole + [msg], missing) && Keeps(part, whole + [msg], missing + 1)
  {
  }

  lemma OfferAccepts(c: Chan, msg: Can.Frame, receiving: bool)
    requires receiving ==> c.buffer == []
    ensures var r := Offer(c, msg, receiving);
            && r.dispatched == c.dispatched
            && (if r.dropped == c.dropped then Accepted(r) == Accepted(c) + [msg]
                else r.dropped == c.dropped + 1 && Accepted(r) == Accepted(c))
  {
  }

  lemma SendServes(c: Chan, msg: Can.Frame, receiving: bool)
    requires Served(c, Some(msg)) && (receiving ==> c.buffer == [])
    ensures Served(Offer(c, msg, receiving), None)
  {
    var before := c.dispatched[..|c.dispatched| - 1];
    assert c.dispatched == before + [msg];
    KeepsAccept(Accepted(c), before, c.dropped, msg);
    OfferAccepts(c, msg, receiving);
  }

  lemma ReceiveKeepsServed(c: Chan, pending: Option<Can.Frame>)
    requires Served(c, pending) && c.buffer != []
    ensures Served(c.(buffer := c.buffer[1..], received := c.received + [c.buffer[0]]), pending)
  {
    assert c.received + [c.buffer[0]] + c.buffer[1..] == Accepted(c);
  }

  lemma StepKeeps(s: State, a: Action)
    requires Inv(s) && Enabled(s, a)
    ensures Inv(Step(s, a))
  {
    match a
    case DispatchSend(id, receiving) => SendKeeps(s, id, receiving);
    case DispatchBegin(msg) => BeginKeeps(s, msg);
    case Receive(id) => ReceiveKeeps(s, id);
    case Subscribe(buffer) => SubscribeKeeps(s, buffer);
    case Unsubscribe(id) => UnsubscribeKeeps(s, id);
    case CloseOne(id) => CloseOneKeeps(s, id);
    case CloseAllTake => TakeKeeps(s);
    case DispatchEnd => EndKeeps(s);
  }

  lemma SendKeeps(s: State, id: nat, receiving: bool)
    requires Inv(s) && Enabled(s, DispatchSend(id, receiving))
    ensures Inv(Step(s, DispatchSend(id, receiving)))
  {
    assert ChanOk(s, id);
    var t := Step(s, DispatchSend(id, receiving));
    SendServes(s.chans[id], s.sending.value.msg, receiving);
    forall i | 0 <= i < |t.chans| ensures ChanOk(t, i) { assert ChanOk(s, i); }
  }

  lemma BeginKeeps(s: State, msg: Can.Frame)
    requires Inv(s) && Enabled(s, DispatchBegin(msg))
    ensures Inv(Step(s, DispatchBegin(msg)))
  {
    var t := Step(s, DispatchBegin(msg));
    forall i | 0 <= i < |t.chans| ensures ChanOk(t, i) {
      assert ChanOk(s, i);
      var d := s.chans[i].dispatched;
      assert (d + [msg])[..|d|] == d;
    }
  }

  lemma ReceiveKeeps(s: State, id: nat)
    requires Inv(s) && Enabled(s, Receive(id))
    ensures Inv(Step(s, Receive(id)))
  {
    var t := Step(s, Receive(id));
    assert ChanOk(s, id);
    ReceiveKeepsServed(s.chans[id], Pending(s, id));
    forall i | 0 <= i < |t.chans| ensures ChanOk(t, i) { assert ChanOk(s, i); }
  }

  lemma SubscribeKeeps(s: State, buffer: int)
    requires Inv(s) && Enabled(s, Subscribe(buffer))
    ensures Inv(Step(s, Subscribe(buffer)))
  {
    var t := Step(s, Subscribe(buffer));
    forall i | 0 <= i < |t.chans| ensures ChanOk(t, i) {
      if i < |s.chans| { assert ChanOk(s, i) && t.chans[i] == s.chans[i]; }
    }
  }

  lemma UnsubscribeKeeps(s: State, id: nat)
    requires Inv(s) && Enabled(s, Unsubscribe(id))
    ensures Inv(Step(s, Unsubscribe(id)))
  {
    var t := Step(s, Unsubscribe(id));
    assert ChanOk(s, id);
    forall i | 0 <= i < |t.chans| ensures ChanOk(t, i) { assert ChanOk(s, i); }
  }

  lemma CloseOneKeeps(s: State, id: nat)
    requires Inv(s) && Enabled(s, CloseOne(id))
    ensures Inv(Step(s, CloseOne(id)))
  {
    var t := Step(s, CloseOne(id));
    assert ChanOk(s, id);
    forall i | 0 <= i < |t.chans| ensures ChanOk(t, i) { assert ChanOk(s, i); }
  }

  lemma TakeKeeps(s: State)
    requires Inv(s) && Enabled(s, CloseAllTake)
    ensures Inv(Step(s, CloseAllTake))
  {
    var t := Step(s, CloseAllTake);
    forall i | 0 <= i < |t.chans| ensures ChanOk(t, i) { assert ChanOk(s, i); }
  }

  lemma EndKeeps(s: State)
    requires Inv(s) && Enabled(s, DispatchEnd)
    ensures Inv(Step(s, DispatchEnd))
  {
    var t := Step(s, DispatchEnd);
    forall i | 0 <= i < |t.chans| ensures ChanOk(t, i) { assert ChanOk(s, i); }
  }

  // ---------- whole runs ----------

  /** The state after a list of actions, if each was enabled when its turn came. */
  function RunFrom(s: State, actions: seq<Action>): Option<State> {
    if actions == [] then Some(s)
    else
      var before, a := RunFrom(s, actions[..|actions| - 1]), actions[|actions| - 1];
      if before.Some? && Enabled(before.value, a) then Some(Step(before.value, a)) else None
  }

  lemma {:induction false} RunKeeps(s: State, actions: seq<Action>)
    requires Inv(s) && RunFrom(s, actions).Some?
    ensures Inv(RunFrom(s, actions).value)
  {
    if actions != [] {
      var front := actions[..|actions| - 1];
      RunKeeps(s, front);
      StepKeeps(RunFrom(s, front).value, actions[|actions| - 1]);
    }
  }

  lemma RunSnoc(s: State, actions: seq<Action>, a: Action)
    requires RunFrom(s, actions).Some? && Enabled(RunFrom(s, actions).value, a)
    ensures RunFrom(s, actions + [a]) == Some(Step(RunFrom(s, actions).value, a))
  {
  }

  lemma {:induction false} RunAppend(s: State, first: seq<Action>, second: seq<Action>)
    requires RunFrom(s, first).Some?
    ensures RunFrom(s, first + second) == RunFrom(RunFrom(s, first).value, second)
  {
    if second == [] {
      assert first + second == first;
    } else {
      assert (first + second)[..|first + second| - 1] == first + second[..|second| - 1];
      RunAppend(s, first, second[..|second| - 1]);
    }
  }

  lemma {:induction false} KeepsCounts(part: seq<Can.Frame>, whole: seq<Can.Frame>, missing: nat)
    requires Keeps(part, whole, missing)
    ensures |part| + missing == |whole|
  {
    if whole != [] {
      var front := whole[..|whole| - 1];
      if part != [] && part[|part| - 1] == whole[|whole| - 1] && Keeps(part[..|part| - 1], front, missing) {
        KeepsCounts(part[..|part| - 1], front, missing);
      } else {
        KeepsCounts(part, front, missing - 1);
      }
    }
  }

  /** In every interleaving nothing is closed twice or sent to after it was closed, and once no
      dispatch is in progress each subscriber's accepted frames are, in order, what was dispatched
      while it was subscribed, less exactly the drops. */
  lemma FanoutSafe(actions: seq<Action>, s: State)
    requires RunFrom(Start, actions) == Some(s)
    ensures !s.panicked
    ensures s.sending.None? ==>
              forall id :: 0 <= id < |s.chans| ==>
                var c := s.chans[id];
                Keeps(Accepted(c), c.dispatched, c.dropped) && |Accepted(c)| + c.dropped == |c.dispatched|
    ensures s.closed && s.closing == {} ==> forall id :: 0 <= id < |s.chans| ==> s.chans[id].closed
  {
    RunKeeps(Start, actions);
    forall id | 0 <= id < |s.chans| && s.sending.None?
      ensures var c := s.chans[id];
              Keeps(Accepted(c), c.dispatched, c.dropped) && |Accepted(c)| + c.dropped == |c.dispatched|
    {
      assert ChanOk(s, id);
      var c := s.chans[id];
      KeepsCounts(Accepted(c), c.dispatched, c.dropped);
    }
    forall id | 0 <= id < |s.chans| && s.closed && s.closing == {} ensures s.chans[id].closed {
      assert ChanOk(s, id);
    }
  }

  /** A closed fan-out can always finish: some taken channel can be closed, or none is left; and
      each such step leaves one fewer. */
  lemma CloseAllFinishes(s: State)
    requires Inv(s) && s.closing != {}
    ensures exists id :: Enabled(s, CloseOne(id)) && |Step(s, CloseOne(id)).closing| < |s.closing|
  {
    var id :| id in s.closing;
    assert Enabled(s, CloseOne(id));
    assert ChanOk(s, id);
  }
}
