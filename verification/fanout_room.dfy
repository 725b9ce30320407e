/** When a subscriber loses frames (driver/internal/backend/fanout.go:41-79): a send drops its frame exactly
    when the subscriber is not receiving and its buffer holds as many frames as it asked for. */
module FanoutRoom {
  import opened Basics
  import opened Fanout
  import Can

  predicate Full(c: Chan) { |c.buffer| >= c.capacity }

  lemma OfferDropsIffFull(c: Chan, msg: Can.Frame, receiving: bool)
    requires receiving ==> c.buffer == []
    ensures var r := Offer(c, msg, receiving);
            if !receiving && Full(c) then r == c.(dropped := c.dropped + 1)
            else Accepted(r) == Accepted(c) + [msg] && r.dropped == c.dropped
                 && |r.buffer| == |c.buffer| + if receiving then 0 else 1
  {
  }

  // ---------- whole runs ----------

  /** The sends to one channel that found it neither receiving nor with room. */
  function Misses(actions: seq<Action>, id: nat): nat {
    if actions == [] then 0
    else
      var front, a := actions[..|actions| - 1], actions[|actions| - 1];
      var s := RunFrom(Start, front);
      Misses(front, id)
      + if a.DispatchSend? && a.id == id && !a.receiving && s.Some? && id < |s.value.chans| && Full(s.value.chans[id])
        then 1 else 0
  }

  /** The buffer sizes asked for, in the order of the subscriptions. */
  function Asked(actions: seq<Action>): seq<int> {
    if actions == [] then []
    else
      var asked, a := Asked(actions[..|actions| - 1]), actions[|actions| - 1];
      if a.Subscribe? then asked + [a.buffer] else asked
  }

  /** The channels are the subscriptions, each with the size asked for, and each has dropped exactly the
      sends that missed; one that dropped a frame was sent more frames than it asked room for. */
  predicate Accounted(actions: seq<Action>, s: State) {
    && |s.chans| == |Asked(actions)|
    && forall id: nat :: id < |s.chans| ==>
         && s.chans[id].capacity == Max(Asked(actions)[id], 0)
         && s.chans[id].dropped == Misses(actions, id)
         && (s.chans[id].dropped > 0 ==> |s.chans[id].dispatched| > s.chans[id].capacity)
  }

  lemma NoMissesBefore(actions: seq<Action>, s: State, id: nat)
    requires RunFrom(Start, actions) == Some(s) && id >= |s.chans|
    ensures Misses(actions, id) == 0
  {
    if actions != [] {
      var front := actions[..|actions| - 1];
      NoMissesBefore(front, RunFrom(Start, front).value, id);
    }
  }

  lemma SendAccounted(s: State, id: nat, receiving: bool)
    requires Inv(s) && Enabled(s, DispatchSend(id, receiving))
    ensures var c, r := s.chans[id], Step(s, DispatchSend(id, receiving)).chans[id];
            && r.capacity == c.capacity && r.dispatched == c.dispatched
            && r.dropped == c.dropped + (if !receiving && Full(c) then 1 else 0)
            && (r.dropped > c.dropped ==> |r.dispatched| > r.capacity)
  {
    assert ChanOk(s, id);
    var c := s.chans[id];
    OfferDropsIffFull(c, s.sending.value.msg, receiving);
    KeepsCounts(Accepted(c), c.dispatched[..|c.dispatched| - 1], c.dropped);
  }

  /** Every other step leaves the drops and the sizes as they were. */
  lemma OthersKeep(s: State, a: Action, id: nat)
    requires Enabled(s, a) && id < |s.chans| && !(a.DispatchSend? && a.id == id)
    ensures id < |Step(s, a).chans|
    ensures var c, r := s.chans[id], Step(s, a).chans[id];
            r.capacity == c.capacity && r.dropped == c.dropped && |r.dispatched| >= |c.dispatched|
  {
  }

  lemma {:induction false} RunAccounted(actions: seq<Action>, s: State)
    requires RunFrom(Start, actions) == Some(s)
    ensures Accounted(actions, s)
  {
    if actions != [] {
      var front, a := actions[..|actions| - 1], actions[|actions| - 1];
      var t := RunFrom(Start, front).value;
      RunAccounted(front, t);
      RunKeeps(Start, front);
      forall id: nat | id < |t.chans|
        ensures id < |s.chans| && s.chans[id].capacity == t.chans[id].capacity
                && s.chans[id].dropped == Misses(actions, id)
                && (s.chans[id].dropped > 0 ==> |s.chans[id].dispatched| > s.chans[id].capacity)
      {
        if a.DispatchSend? && a.id == id { SendAccounted(t, id, a.receiving); } else { OthersKeep(t, a, id); }
      }
      if a.Subscribe? { NoMissesBefore(front, t, |t.chans|); }
    }
  }

  lemma {:induction false} KeepsAll(part: seq<Can.Frame>, whole: seq<Can.Frame>)
    requires Keeps(part, whole, 0)
    ensures part == whole
  {
    if whole != [] { KeepsAll(part[..|part| - 1], whole[..|whole| - 1]); }
  }

  /** In every interleaving a subscriber has lost exactly the frames whose send found it not receiving and
      with a full buffer. So one that always has room has, between dispatches, been handed everything
      dispatched; and that is so whatever it does when it asked for room for all of it. */
  lemma RoomLosesNothing(actions: seq<Action>, s: State, id: nat)
    requires RunFrom(Start, actions) == Some(s) && id < |s.chans|
    ensures id < |Asked(actions)|
    ensures s.chans[id].dropped == Misses(actions, id)
    ensures s.sending.None? && Misses(actions, id) == 0 ==> Accepted(s.chans[id]) == s.chans[id].dispatched
    ensures s.sending.None? && |s.chans[id].dispatched| <= Asked(actions)[id]
            ==> Accepted(s.chans[id]) == s.chans[id].dispatched
  {
    RunAccounted(actions, s);
    RunKeeps(Start, actions);
    assert ChanOk(s, id);
    if s.sending.None? && s.chans[id].dropped == 0 { KeepsAll(Accepted(s.chans[id]), s.chans[id].dispatched); }
  }
}
