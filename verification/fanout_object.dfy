/** The fan-out as an object (driver/internal/backend/fanout.go:10-95). Each method, run without
    interference, is a run of the steps of module Fanout and has the effect its name promises. */
module FanoutObject {
  import opened Basics
  import opened Fanout
  import opened FanoutRoom
  import Can

  /** The frame reaches the channel, or is dropped when its subscriber is not waiting and has no room. */
  predicate HandedOrDropped(before: Chan, after: Chan, msg: Can.Frame, waiting: bool) {
    if !waiting && |before.buffer| >= before.capacity
    then Accepted(after) == Accepted(before) && after.dropped == before.dropped + 1
    else Accepted(after) == Accepted(before) + [msg] && after.dropped == before.dropped
  }

  lemma AllHandedOrDropped(before: seq<Chan>, after: seq<Chan>, subs: set<nat>, msg: Can.Frame, waiting: set<nat>)
    requires |before| == |after|
    requires forall i :: i in waiting && i < |before| ==> before[i].buffer == []
    requires forall i :: i in subs && i < |after| ==> after[i] == Offer(Announced(before[i], msg), msg, i in waiting)
    ensures forall i :: i in subs && i < |after| ==> HandedOrDropped(before[i], after[i], msg, i in waiting)
  {
    forall i | i in subs && i < |after| ensures HandedOrDropped(before[i], after[i], msg, i in waiting) {
      OfferDropsIffFull(Announced(before[i], msg), msg, i in waiting);
    }
  }

  class RxFanout {
    var chans: seq<Chan>
    var subs: set<nat>
    var closed: bool
    /** The channels some `closeAll` has taken and not closed yet, known to it alone. */
    ghost var closing: set<nat>

    ghost function Value(): State reads this { During(None) }

    ghost function During(sending: Option<Sending>): State reads this {
      State(chans, subs, closed, sending, closing, false)
    }

    constructor ()
      ensures Inv(Value()) && Value() == Start
    {
      chans, subs, closed, closing := [], {}, false, {};
    }

    method Subscribe(buffer: int) returns (id: nat)
      requires Inv(Value())
      modifies this
      ensures Inv(Value()) && Value() == Step(old(Value()), Action.Subscribe(buffer))
      ensures id == |old(chans)| && (chans[id].closed <==> old(closed))
    {
      StepKeeps(Value(), Action.Subscribe(buffer));
      id := |chans|;
      var ch := Chan(if buffer < 0 then 0 else buffer, [], false, [], 0, []);
      if closed {
        chans := chans + [ch.(closed := true)];
        return;
      }
      chans, subs := chans + [ch], subs + {id};
    }

    method Unsubscribe(id: nat)
      requires Inv(Value()) && id < |chans|
      modifies this
      ensures Inv(Value()) && Value() == Step(old(Value()), Action.Unsubscribe(id))
      ensures id !in subs && (chans[id].closed || id in closing)
    {
      StepKeeps(Value(), Action.Unsubscribe(id));
      assert ChanOk(Value(), id);
      if id in subs {
        subs := subs - {id};
        chans := chans[id := chans[id].(closed := true)];
      }
    }

    /** The model's record that the frame is on its way. */
    method Announce(msg: Can.Frame)
      requires Inv(Value())
      modifies this`chans
      ensures chans == AnnounceAll(old(Value()), msg)
      ensures During(Some(Sending(msg, subs))) == Step(old(Value()), DispatchBegin(msg))
    {
      ghost var s0 := Value();
      chans := seq(|chans|, i requires 0 <= i < |chans| reads this =>
        if i in subs then Announced(chans[i], msg) else chans[i]);
      assert chans == AnnounceAll(s0, msg);
    }

    /** One non-blocking send of a dispatch. */
    method SendTo(id: nat, msg: Can.Frame, receiving: bool, ghost remaining: set<nat>)
      requires Inv(During(Some(Sending(msg, remaining)))) && id in remaining && id < |chans|
      requires receiving ==> chans[id].buffer == []
      modifies this`chans
      ensures chans == old(chans)[id := Offer(old(chans)[id], msg, receiving)]
      ensures During(Some(Sending(msg, remaining - {id})))
              == Step(old(During(Some(Sending(msg, remaining)))), DispatchSend(id, receiving))
    {
      assert ChanOk(During(Some(Sending(msg, remaining))), id);
      chans := chans[id := Offer(chans[id], msg, receiving)];
    }

    /** The loop of a dispatch: one send to each subscriber. */
    method SendAll(msg: Can.Frame, waiting: set<nat>) returns (ghost run: seq<Action>)
      requires Inv(During(Some(Sending(msg, subs))))
      requires forall id :: id in waiting && id < |chans| ==> chans[id].buffer == []
      modifies this`chans
      ensures |chans| == |old(chans)|
      ensures forall i :: 0 <= i < |chans| ==>
                chans[i] == if i in subs then Offer(old(chans)[i], msg, i in waiting) else old(chans)[i]
      ensures RunFrom(old(During(Some(Sending(msg, subs)))), run) == Some(During(Some(Sending(msg, {}))))
    {
      ghost var s0 := During(Some(Sending(msg, subs)));
      var announced, remaining := chans, subs;
      run := [];
      while remaining != {}
        invariant remaining <= subs && |chans| == |announced|
        invariant forall i :: 0 <= i < |chans| ==>
                    chans[i] == if i in subs && i !in remaining then Offer(announced[i], msg, i in waiting)
                                else announced[i]
        invariant RunFrom(s0, run) == Some(During(Some(Sending(msg, remaining))))
        decreases |remaining|
      {
        var id :| id in remaining;
        RunKeeps(s0, run);
        RunSnoc(s0, run, DispatchSend(id, id in waiting));
        run := run + [DispatchSend(id, id in waiting)];
        SendTo(id, msg, id in waiting, remaining);
        remaining := remaining - {id};
      }
    }

    /** `waiting` are the subscribers blocked in a receive. Every subscriber is offered the frame
        exactly once, and misses it exactly when it is not waiting and its buffer is full; nobody else is
        touched, and no send can panic. */
    method Dispatch(msg: Can.Frame, waiting: set<nat>) returns (ghost run: seq<Action>)
      requires Inv(Value())
      requires forall id :: id in waiting && id < |chans| ==> chans[id].buffer == []
      modifies this`chans
      ensures Inv(Value()) && RunFrom(old(Value()), run) == Some(Value())
      ensures |chans| == |old(chans)|
      ensures forall i :: 0 <= i < |chans| ==>
                chans[i] == if i !in subs then old(chans)[i]
                            else Offer(Announced(old(chans)[i], msg), msg, i in waiting)
      ensures forall i :: i in subs && i < |chans| ==> HandedOrDropped(old(chans)[i], chans[i], msg, i in waiting)
    {
      ghost var s0 := Value();
      ghost var begin := [] + [DispatchBegin(msg)];
      RunSnoc(s0, [], DispatchBegin(msg));
      RunKeeps(s0, begin);
      Announce(msg);
      run := SendAll(msg, waiting);
      RunAppend(s0, begin, run);
      run := begin + run;
      RunSnoc(s0, run, DispatchEnd);
      run := run + [DispatchEnd];
      RunKeeps(s0, run);
      AllHandedOrDropped(s0.chans, chans, subs, msg, waiting);
    }

    /** The part of `closeAll` under the lock: nothing is left to subscribe to or to send to, and the
        channels are the caller's to close. */
    method TakeAll() returns (taken: set<nat>)
      requires Inv(Value())
      modifies this`subs, this`closed, this`closing
      ensures Inv(Value()) && Value() == Step(old(Value()), CloseAllTake)
      ensures closed && subs == {} && taken == (if old(closed) then {} else closing)
    {
      StepKeeps(Value(), CloseAllTake);
      if closed { return {}; }
      closed := true;
      taken := subs;
      subs, closing := {}, subs;
    }

    /** One round of the loop after the lock: what was called in between makes no difference. */
    method CloseTaken(id: nat)
      requires Inv(Value()) && id in closing
      modifies this`chans, this`closing
      ensures Inv(Value()) && id < |chans| && chans[id].closed && closing == old(closing) - {id}
      ensures old(id < |chans|) && Value() == Step(old(Value()), CloseOne(id))
    {
      assert ChanOk(Value(), id);
      StepKeeps(Value(), CloseOne(id));
      closing := closing - {id};
      chans := chans[id := chans[id].(closed := true)];
    }

    /** Both parts without interference: everything is closed, except what another call of `closeAll`
        has still to close. */
    method CloseAll() returns (ghost run: seq<Action>)
      requires Inv(Value())
      modifies this
      ensures Inv(Value()) && RunFrom(old(Value()), run) == Some(Value())
      ensures closed && subs == {} && closing == (if old(closed) then old(closing) else {})
      ensures forall i :: 0 <= i < |chans| ==> (chans[i].closed <==> i !in closing)
    {
      ghost var s0 := Value();
      RunSnoc(s0, [], CloseAllTake);
      run := [] + [CloseAllTake];
      var taken := TakeAll();
      while taken != {}
        invariant closed && subs == {} && Inv(Value()) && RunFrom(s0, run) == Some(Value())
        invariant closing == if old(closed) then old(closing) else taken
        invariant old(closed) ==> taken == {}
        decreases |taken|
      {
        var id :| id in taken;
        RunSnoc(s0, run, CloseOne(id));
        run := run + [CloseOne(id)];
        CloseTaken(id);
        taken := taken - {id};
      }
      forall i | 0 <= i < |chans| ensures chans[i].closed <==> i !in closing { assert ChanOk(Value(), i); }
    }
  }
}
