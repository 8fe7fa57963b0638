/** The client's publish unit: fields updated in place, each method one event of PublishModel. */
module Publish {
  import opened Common
  import opened PublishModel

  class SfuPublish {
    var producers: seq<Producer>
    var producingInProgress: map<Slot, HandshakeId>
    var pendingLocalProduces: seq<Intent>
    var retainedLocalProduces: seq<Intent>
    // The host's send transport, those created and not closed, its connection, and the produce handshakes awaited so far.
    var transport: Option<Epoch>
    var open: set<Epoch>
    var epochs: Epoch
    var connected: bool
    var handshakes: seq<Handshake>
    // What became of the promise of each buffered call.
    var dispositions: seq<Disposition>

    ghost function Abs(): State
      reads this
    {
      State(producers, handshakes, producingInProgress, pendingLocalProduces, dispositions, retainedLocalProduces,
            transport, open, epochs, connected)
    }

    constructor ()
      ensures Abs() == IDLE
    {
      producers, producingInProgress, pendingLocalProduces, retainedLocalProduces := [], map[], [], [];
      transport, open, epochs, connected, handshakes, dispositions := None, {}, 0, false, [], [];
    }

    /** The first producer of the kind that is not a screen share. */
    method GetProducerByKind(kind: Kind) returns (found: Option<Producer>)
      ensures found == FindProducer(producers, if kind == Audio then AudioSlot else CameraSlot)
      ensures FirstServing(producers, Intent(0, kind, NoSource, false), found)
    {
      var slot := if kind == Audio then AudioSlot else CameraSlot;
      FindsFirst(producers, Intent(0, kind, NoSource, false));
      hide FirstServing;
      for i := 0 to |producers|
        invariant FindProducer(producers, slot) == FindProducer(producers[i..], slot)
      {
        var p := producers[i];
        assert producers[i..][1..] == producers[i + 1..];
        if p.kind == kind && !(kind == Video && p.source == Screen) { return Some(p); }
      }
      found := None;
    }

    method GetScreenProducer() returns (found: Option<Producer>)
      ensures found == FindProducer(producers, ScreenSlot)
      ensures FirstServing(producers, Intent(0, Video, Screen, false), found)
    {
      FindsFirst(producers, Intent(0, Video, Screen, false));
      hide FirstServing;
      for i := 0 to |producers|
        invariant FindProducer(producers, ScreenSlot) == FindProducer(producers[i..], ScreenSlot)
      {
        var p := producers[i];
        assert producers[i..][1..] == producers[i + 1..];
        if p.kind == Video && p.source == Screen { return Some(p); }
      }
      found := None;
    }

    method ProduceWithSource(i: Intent, live: bool) returns (reply: Reply)
      modifies this
      ensures (Abs(), reply) == ProduceStep(old(Abs()), i, live)
    {
      if transport.None? {
        if !connected || |pendingLocalProduces| >= MAX_BUFFERED || !live { return Null; }
        reply := Buffered(|dispositions| + |pendingLocalProduces|);
        pendingLocalProduces := pendingLocalProduces + [i];
        return;
      }
      var existing: Option<Producer>;
      if i.source != Screen {
        existing := GetProducerByKind(i.kind);
      } else {
        existing := GetScreenProducer();
      }
      if existing.Some? { return Existing(existing.value); }
      // singleFlight on the slot
      if KeyOf(i) in producingInProgress { return Joined(producingInProgress[KeyOf(i)]); }
      reply := Joined(|handshakes|);
      producingInProgress := producingInProgress[KeyOf(i) := |handshakes|];
      handshakes := handshakes + [Handshake(i, transport.value, false)];
    }

    /** Issues the calls in order, each one seeing what the ones before it did. */
    method ProduceEach(intents: seq<Intent>, live: set<Track>)
      modifies this
      ensures Abs() == ProduceAll(old(Abs()), intents, live)
    {
      for k := 0 to |intents|
        invariant ProduceAll(Abs(), intents[k..], live) == ProduceAll(old(Abs()), intents, live)
      {
        assert intents[k..][0] == intents[k] && intents[k..][1..] == intents[k + 1..];
        var reply := ProduceWithSource(intents[k], intents[k].track in live);
      }
    }

    /** A send transport was created and takes the place of any other: the buffered calls are issued, and settle with them. */
    method TransportReady()
      modifies this
      ensures Abs() == Step(old(Abs()), Event.TransportReady)
    {
      transport, open, epochs := Some(epochs), open + {epochs}, epochs + 1;
      var pending := pendingLocalProduces;
      pendingLocalProduces := [];
      dispositions := dispositions + Repeat(Flushed, |pending|);
      ProduceEach(pending, {});
    }

    method HandshakeSucceeded(h: HandshakeId)
      requires Possible(Abs(), Resolve(h))
      modifies this
      ensures Abs() == Step(old(Abs()), Resolve(h))
    {
      handshakes := handshakes[h := handshakes[h].(settled := true)];
      producers := producers + [Produced(handshakes[h].intent)];
    }

    method HandshakeFailed(h: HandshakeId)
      requires Possible(Abs(), Reject(h))
      modifies this
      ensures Abs() == Step(old(Abs()), Reject(h))
    {
      handshakes := handshakes[h := handshakes[h].(settled := true)];
    }

    method HandshakeForgotten(h: HandshakeId)
      requires Possible(Abs(), Forget(h))
      modifies this
      ensures Abs() == Step(old(Abs()), Forget(h))
    {
      var key := KeyOf(handshakes[h].intent);
      if key in producingInProgress && producingInProgress[key] == h {
        producingInProgress := producingInProgress - {key};
      }
    }

    /** Position of the slot's first producer, or the number of producers. */
    method IndexOfProducer(slot: Slot) returns (k: nat)
      ensures k <= |producers| && (forall i | 0 <= i < k :: SlotOf(producers[i]) != slot)
      ensures k < |producers| ==> SlotOf(producers[k]) == slot
    {
      k := 0;
      while k < |producers|
        invariant k <= |producers| && forall i | 0 <= i < k :: SlotOf(producers[i]) != slot
      {
        if SlotOf(producers[k]) == slot { return; }
        k := k + 1;
      }
    }

    /** Looks the slot's producer up and deletes it; without one nothing happens. */
    method CloseProducer(slot: Slot)
      modifies this
      ensures Abs() == Step(old(Abs()), Event.CloseProducer(slot))
    {
      var k := IndexOfProducer(slot);
      RemovedAt(producers, slot, k);
      if k == |producers| { return; }
      producers := producers[..k] + producers[k + 1..];
    }

    /** Deleting what the lookup found is what the model's closing of the slot removes. */
    lemma {:induction false} RemovedAt(ps: seq<Producer>, slot: Slot, k: nat)
      requires k <= |ps| && (forall i | 0 <= i < k :: SlotOf(ps[i]) != slot) && (k < |ps| ==> SlotOf(ps[k]) == slot)
      ensures RemoveFirst(ps, slot) == if k == |ps| then ps else ps[..k] + ps[k + 1..]
      decreases k
    {
      if k > 0 {
        RemovedAt(ps[1..], slot, k - 1);
        assert ps == [ps[0]] + ps[1..];
        if k < |ps| { assert ps[..k] + ps[k + 1..] == [ps[0]] + (ps[1..][..k - 1] + ps[1..][k..]); }
      } else if ps != [] {
        assert ps[..0] + ps[1..] == ps[1..];
      }
    }

    /** Live published tracks and buffered calls become intents to replay; the callers get null. */
    method RetainLocalProduces(live: set<Track>)
      modifies this
      ensures Abs() == Step(old(Abs()), Retain(live))
    {
      for k := 0 to |producers|
        invariant producers == old(producers)
        invariant Abs() == old(Abs()).(retained := retainedLocalProduces)
        invariant retainedLocalProduces + LiveIntents(producers[k..], live) ==
                  old(retainedLocalProduces) + LiveIntents(producers, live)
      {
        var p := producers[k];
        assert producers[k..][0] == p && producers[k..][1..] == producers[k + 1..];
        ghost var rest := LiveIntents(producers[k + 1..], live);
        assert LiveIntents(producers[k..], live) == LiveIntent(p, live) + rest;
        AppendAssoc(retainedLocalProduces, LiveIntent(p, live), rest);
        hide LiveIntents;
        retainedLocalProduces := retainedLocalProduces + LiveIntent(p, live);
      }
      assert retainedLocalProduces + [] == retainedLocalProduces;
      assert producers[|producers|..] == [];
      dispositions := dispositions + Repeat(ResolvedNull, |pendingLocalProduces|);
      retainedLocalProduces := retainedLocalProduces + pendingLocalProduces;
      pendingLocalProduces := [];
    }

    method ReplayRetainedProduces(live: set<Track>)
      modifies this
      ensures Abs() == Step(old(Abs()), Replay(live))
    {
      var retained := retainedLocalProduces;
      retainedLocalProduces := [];
      ProduceEach(retained, live);
    }

    method ClearRetainedProduces()
      modifies this
      ensures Abs() == Step(old(Abs()), ClearRetained)
    {
      retainedLocalProduces := [];
    }

    /** Closes every producer, forgets the handshakes under way and rejects the buffered calls. */
    method CloseAll()
      modifies this
      ensures Abs() == Step(old(Abs()), Event.CloseAll)
    {
      producers, producingInProgress := [], map[];
      dispositions := dispositions + Repeat(RejectedClosed, |pendingLocalProduces|);
      pendingLocalProduces := [];
      if transport.Some? { open := open - {transport.value}; }
      transport := None;
    }
  }
}
