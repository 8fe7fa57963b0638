/**
 When one producer per slot holds at all: the sharing key of a produce call and the slot its producer is
 filed under differ for an audio track published as a screen share, so such a call can double the audio
 slot. This module drops the assumption that screen shares are videos and says exactly when it happens.
 */
module PublishSlots {
  import opened Common
  import opened PublishModel

  /** The slot the call's producer will be found in. */
  function Target(i: Intent): Slot { SlotOf(Produced(i)) }

  /** No producer is in the slot, and no handshake that can still succeed is for it. */
  ghost predicate Unclaimed(s: State, slot: Slot) {
    FindProducer(s.producers, slot) == None
    && forall h: HandshakeId | h < |s.handshakes| && Open(s, h) :: Target(s.handshakes[h].intent) != slot
  }

  /** Producers and open handshakes together hold each slot at most once. */
  ghost predicate SingleClaims(s: State) {
    && OnePerSlot(s.producers)
    && (forall h: HandshakeId | h < |s.handshakes| && Open(s, h) :: FindProducer(s.producers, Target(s.handshakes[h].intent)) == None)
    && (forall g: HandshakeId, h: HandshakeId | g < h < |s.handshakes| && Open(s, g) && Open(s, h) ::
          Target(s.handshakes[g].intent) != Target(s.handshakes[h].intent))
  }

  ghost predicate Dated(s: State) {
    && (s.transport.Some? ==> s.transport.value in s.open)
    && (forall e | e in s.open :: e < s.epochs)
    && forall h | h in s.handshakes :: h.epoch < s.epochs
  }

  predicate Starts(s: State, i: Intent) {
    s.transport.Some? && FindProducer(s.producers, KeyOf(i)) == None && KeyOf(i) !in s.inProgress
  }

  /** What a caller can look up before the call: a call that starts a handshake finds its target slot unclaimed. */
  ghost predicate Guarded(s: State, i: Intent) { Starts(s, i) ==> Unclaimed(s, Target(i)) }

  ghost predicate AllGuarded(s: State, intents: seq<Intent>, live: set<Track>)
    decreases |intents|
  {
    intents == [] ||
    (Guarded(s, intents[0]) && AllGuarded(ProduceStep(s, intents[0], intents[0].track in live).0, intents[1..], live))
  }

  ghost predicate GuardedEvent(s: State, e: Event)
    requires Possible(s, e)
  {
    match e
    case Produce(i, _) => Guarded(s, i)
    case TransportReady => AllGuarded(Opened(s), s.buffered, {})
    case Replay(live) => AllGuarded(s.(retained := []), s.retained, live)
    case _ => true
  }

  ghost predicate GuardedRun(s: State, es: seq<Event>)
    requires PossibleRun(s, es)
    decreases |es|
  {
    es == [] || (GuardedEvent(s, es[0]) && GuardedRun(Step(s, es[0]), es[1..]))
  }

  ghost predicate SingleThroughout(s: State, es: seq<Event>)
    requires PossibleRun(s, es)
    decreases |es|
  {
    SingleClaims(s) && (es == [] || SingleThroughout(Step(s, es[0]), es[1..]))
  }

  lemma StartedExactly(s: State, i: Intent, live: bool)
    requires SingleClaims(s) && Starts(s, i) && s.transport.value in s.open
    ensures SingleClaims(ProduceStep(s, i, live).0) <==> Unclaimed(s, Target(i))
  {
    var t := ProduceStep(s, i, live).0;
    var n := |s.handshakes|;
    assert t.producers == s.producers && t.open == s.open;
    assert t.handshakes == s.handshakes + [Handshake(i, s.transport.value, false)] && Open(t, n);
    hide ProduceStep, Target, FindProducer, OnePerSlot;
    assert forall h: HandshakeId | h < n :: t.handshakes[h] == s.handshakes[h] && Open(t, h) == Open(s, h);
    if SingleClaims(t) {
      assert t.handshakes[n].intent == i;
      forall h: HandshakeId | h < n && Open(s, h) ensures Target(s.handshakes[h].intent) != Target(i) {
        assert Open(t, h) && Open(t, n);
      }
    }
  }

  lemma ProduceExactly(s: State, i: Intent, live: bool)
    requires SingleClaims(s) && (s.transport.Some? ==> s.transport.value in s.open)
    ensures SingleClaims(ProduceStep(s, i, live).0) <==> Guarded(s, i)
  {
    if Starts(s, i) {
      StartedExactly(s, i, live);
    } else {
      var t := ProduceStep(s, i, live).0;
      assert t.producers == s.producers && t.open == s.open && t.handshakes == s.handshakes;
      hide ProduceStep, Target, FindProducer, OnePerSlot;
      SameClaims(s, t);
    }
  }

  lemma SameClaims(s: State, t: State)
    requires t.producers == s.producers && t.open == s.open && t.handshakes == s.handshakes
    ensures SingleClaims(t) <==> SingleClaims(s)
  {
    assert forall h: HandshakeId | h < |s.handshakes| :: Open(t, h) == Open(s, h);
    hide Target, FindProducer, OnePerSlot, Open;
  }

  /** A slot claimed twice stays so while calls are issued. */
  lemma DoubleStays(s: State, i: Intent, live: bool)
    requires !SingleClaims(s)
    ensures !SingleClaims(ProduceStep(s, i, live).0)
  {
    var t := ProduceStep(s, i, live).0;
    assert t.producers == s.producers && t.open == s.open && s.handshakes <= t.handshakes;
    hide ProduceStep, Target, FindProducer, OnePerSlot;
    assert forall h: HandshakeId | h < |s.handshakes| :: t.handshakes[h] == s.handshakes[h] && Open(t, h) == Open(s, h);
  }

  lemma {:induction false} DoubleStaysAll(s: State, intents: seq<Intent>, live: set<Track>)
    requires !SingleClaims(s)
    ensures !SingleClaims(ProduceAll(s, intents, live))
    decreases |intents|
  {
    if intents != [] {
      DoubleStays(s, intents[0], intents[0].track in live);
      hide SingleClaims, ProduceStep;
      DoubleStaysAll(ProduceStep(s, intents[0], intents[0].track in live).0, intents[1..], live);
    }
  }

  lemma {:induction false} ProduceAllExactly(s: State, intents: seq<Intent>, live: set<Track>)
    requires SingleClaims(s) && (s.transport.Some? ==> s.transport.value in s.open)
    ensures SingleClaims(ProduceAll(s, intents, live)) <==> AllGuarded(s, intents, live)
    decreases |intents|
  {
    if intents != [] {
      var t := ProduceStep(s, intents[0], intents[0].track in live).0;
      ProduceExactly(s, intents[0], intents[0].track in live);
      assert t.transport == s.transport && t.open == s.open;
      hide SingleClaims, ProduceStep, Guarded;
      if SingleClaims(t) { ProduceAllExactly(t, intents[1..], live); } else { DoubleStaysAll(t, intents[1..], live); }
    }
  }

  lemma ResolveKeepsSingle(s: State, h: HandshakeId)
    requires SingleClaims(s) && Possible(s, Resolve(h))
    ensures SingleClaims(Step(s, Resolve(h)))
  {
    var t, p := Step(s, Resolve(h)), Produced(s.handshakes[h].intent);
    assert Open(s, h) && t.producers == s.producers + [p];
    FindProducerExact(s.producers, SlotOf(p));
    forall g: HandshakeId | g < |t.handshakes| && Open(t, g)
      ensures Open(s, g) && t.handshakes[g] == s.handshakes[g] && FindProducer(t.producers, Target(s.handshakes[g].intent)) == None
    {
      FindProducerExact(s.producers, Target(s.handshakes[g].intent));
      FindProducerExact(t.producers, Target(s.handshakes[g].intent));
      assert g < h || h < g;
    }
    hide FindProducer;
  }

  /** Settling a handshake without a producer, or closing producers, claims nothing. */
  lemma FewerClaims(s: State, t: State)
    requires SingleClaims(s) && OnePerSlot(t.producers) && forall p | p in t.producers :: p in s.producers
    requires |t.handshakes| == |s.handshakes|
    requires forall h: HandshakeId | h < |s.handshakes| && Open(t, h) :: Open(s, h) && t.handshakes[h] == s.handshakes[h]
    ensures SingleClaims(t)
  {
    hide OnePerSlot, Open, Target, FindProducer;
    forall h: HandshakeId | h < |t.handshakes| && Open(t, h)
      ensures FindProducer(t.producers, Target(t.handshakes[h].intent)) == None
    {
      FindProducerExact(s.producers, Target(s.handshakes[h].intent));
      FindProducerExact(t.producers, Target(s.handshakes[h].intent));
    }
  }

  lemma OpenedClaims(s: State)
    requires SingleClaims(s) && Dated(s)
    ensures SingleClaims(Opened(s))
  {
    hide OnePerSlot, Target, FindProducer;
    forall h: HandshakeId | h < |s.handshakes| ensures Open(Opened(s), h) == Open(s, h) { assert s.handshakes[h] in s.handshakes; }
  }

  /** Each event keeps single claims exactly when it is guarded; only calls, flushes and replays need to be. */
  lemma StepExactly(s: State, e: Event)
    requires SingleClaims(s) && Dated(s) && Possible(s, e)
    ensures SingleClaims(Step(s, e)) <==> GuardedEvent(s, e)
  {
    match e
    case Connectivity(_) => SameClaims(s, Step(s, e));
    case Produce(i, live) => ProduceExactly(s, i, live);
    case TransportReady =>
      OpenedClaims(s);
      ProduceAllExactly(Opened(s), s.buffered, {});
    case Resolve(h) => ResolveKeepsSingle(s, h);
    case Reject(h) => FewerClaims(s, Step(s, e));
    case Forget(h) => SameClaims(s, Step(s, e));
    case CloseProducer(slot) =>
      RemoveFirstExact(s.producers, slot);
      FewerClaims(s, Step(s, e));
    case Retain(_) => SameClaims(s, Step(s, e));
    case Replay(live) =>
      SameClaims(s, s.(retained := []));
      ProduceAllExactly(s.(retained := []), s.retained, live);
    case ClearRetained => SameClaims(s, Step(s, e));
    case CloseAll => FewerClaims(s, Step(s, e));
  }

  lemma {:induction false} ProduceAllDated(s: State, intents: seq<Intent>, live: set<Track>)
    requires Dated(s)
    ensures Dated(ProduceAll(s, intents, live))
    decreases |intents|
  {
    if intents != [] {
      ProduceAllDated(ProduceStep(s, intents[0], intents[0].track in live).0, intents[1..], live);
    }
  }

  lemma StepDated(s: State, e: Event)
    requires Dated(s) && Possible(s, e)
    ensures Dated(Step(s, e))
  {
    match e
    case TransportReady => ProduceAllDated(Opened(s), s.buffered, {});
    case Replay(live) => ProduceAllDated(s.(retained := []), s.retained, live);
    case _ => hide ProduceAll;
  }

  /** In every run, of any calls, single claims hold throughout if and only if every call is guarded. */
  lemma {:induction false} SingleThroughoutExactly(s: State, es: seq<Event>)
    requires SingleClaims(s) && Dated(s) && PossibleRun(s, es)
    ensures SingleThroughout(s, es) <==> GuardedRun(s, es)
    decreases |es|
  {
    if es != [] {
      StepExactly(s, es[0]);
      StepDated(s, es[0]);
      hide Step, SingleClaims, Dated, GuardedEvent;
      if SingleClaims(Step(s, es[0])) { SingleThroughoutExactly(Step(s, es[0]), es[1..]); }
    }
  }

  lemma IdleSingle()
    ensures SingleClaims(IDLE) && Dated(IDLE)
  {
  }

  ghost predicate OnlyResolves(es: seq<Event>) { forall e | e in es :: e.Resolve? }

  lemma {:induction false} ResolvesKeepSingle(s: State, es: seq<Event>)
    requires SingleClaims(s) && PossibleRun(s, es) && OnlyResolves(es)
    ensures OnePerSlot(Run(s, es).producers)
    decreases |es|
  {
    if es != [] {
      assert es[0] in es;
      ResolveKeepsSingle(s, es[0].handshake);
      hide Step, SingleClaims;
      ResolvesKeepSingle(Step(s, es[0]), es[1..]);
    }
  }

  /** A handshake for a slot that has a producer doubles it. */
  lemma ResolveDoubles(s: State, h: HandshakeId)
    requires h < |s.handshakes| && Open(s, h) && FindProducer(s.producers, Target(s.handshakes[h].intent)).Some?
    ensures Possible(s, Resolve(h)) && !OnePerSlot(Step(s, Resolve(h)).producers)
  {
    var slot := Target(s.handshakes[h].intent);
    var ps := s.producers + [Produced(s.handshakes[h].intent)];
    FindProducerExact(s.producers, slot);
    var i :| 0 <= i < |s.producers| && SlotOf(s.producers[i]) == slot;
    assert SlotOf(ps[i]) == SlotOf(ps[|s.producers|]);
  }

  lemma ResolveBothDoubles(s: State, g: HandshakeId, h: HandshakeId)
    requires g < h < |s.handshakes| && Open(s, g) && Open(s, h)
    requires Target(s.handshakes[g].intent) == Target(s.handshakes[h].intent)
    ensures PossibleRun(s, [Resolve(g)] + ([Resolve(h)] + []))
    ensures !OnePerSlot(Run(s, [Resolve(g)] + ([Resolve(h)] + [])).producers)
  {
    var t, slot := Step(s, Resolve(g)), Target(s.handshakes[h].intent);
    var p := Produced(s.handshakes[g].intent);
    assert t.producers == s.producers + [p] && t.handshakes[h] == s.handshakes[h] && Open(t, h);
    FindProducerExact(t.producers, slot);
    assert p in t.producers && SlotOf(p) == slot;
    ResolveDoubles(t, h);
    hide Step;
    assert Run(Step(t, Resolve(h)), []) == Step(t, Resolve(h));
    RunCons(t, Resolve(h), []);
    RunCons(s, Resolve(g), [Resolve(h)] + []);
  }

  /** What single claims are for: one producer per slot however the open handshakes succeed, exactly while they hold. */
  lemma SingleClaimsExactly(s: State)
    ensures SingleClaims(s) <==>
            forall es | PossibleRun(s, es) && OnlyResolves(es) :: OnePerSlot(Run(s, es).producers)
  {
    if SingleClaims(s) {
      forall es | PossibleRun(s, es) && OnlyResolves(es) ensures OnePerSlot(Run(s, es).producers) { ResolvesKeepSingle(s, es); }
    } else if !OnePerSlot(s.producers) {
      assert PossibleRun(s, []) && OnlyResolves([]) && Run(s, []) == s;
    } else if h: HandshakeId :| h < |s.handshakes| && Open(s, h) && FindProducer(s.producers, Target(s.handshakes[h].intent)) != None {
      ResolveDoubles(s, h);
      assert Run(Step(s, Resolve(h)), []) == Step(s, Resolve(h));
      RunCons(s, Resolve(h), []);
      assert OnlyResolves([Resolve(h)] + []);
    } else {
      var g: HandshakeId, h: HandshakeId :| g < h < |s.handshakes| && Open(s, g) && Open(s, h)
        && Target(s.handshakes[g].intent) == Target(s.handshakes[h].intent);
      ResolveBothDoubles(s, g, h);
      assert OnlyResolves([Resolve(g)] + ([Resolve(h)] + []));
    }
  }

  /** One call on a sound state, and its success: the slots stay single exactly for a video share or a free audio slot. */
  lemma AudioShareExactly(s: State, i: Intent)
    requires Sound(s) && Starts(s, i)
    ensures var t := ProduceStep(s, i, true).0; var h := |s.handshakes|;
            && Possible(t, Resolve(h))
            && (OnePerSlot(Step(t, Resolve(h)).producers) <==> WellSourced(i) || FindProducer(s.producers, AudioSlot) == None)
  {
    var t, h := ProduceStep(s, i, true).0, |s.handshakes|;
    assert t.handshakes[h] == Handshake(i, s.transport.value, false) && Open(t, h) && t.producers == s.producers;
    assert Target(i) == if WellSourced(i) then KeyOf(i) else AudioSlot;
    hide ProduceStep;
    FindProducerExact(s.producers, Target(i));
    if FindProducer(s.producers, Target(i)).Some? { ResolveDoubles(t, h); }
  }

  /**
   Two calls with different keys open together, and both succeed in either order: the slots stay single
   exactly if both are well sourced, or the audio slot is free and only one of the calls is for it.
   */
  lemma AudioSharesTogetherExactly(s: State, i: Intent, j: Intent)
    requires Sound(s) && Starts(s, i) && Starts(s, j) && KeyOf(i) != KeyOf(j)
    ensures var t := ProduceStep(ProduceStep(s, i, true).0, j, true).0; var n := |s.handshakes|;
            var free := FindProducer(s.producers, AudioSlot) == None;
            var single := (WellSourced(i) && WellSourced(j)) || (free && !(i.kind == Audio && j.kind == Audio));
            && t.producers == s.producers
            && |t.handshakes| == n + 2 && Open(t, n) && Open(t, n + 1)
            && (OnePerSlot(s.producers + [Produced(i), Produced(j)]) <==> single)
            && (OnePerSlot(s.producers + [Produced(j), Produced(i)]) <==> single)
            && Step(Step(t, Resolve(n)), Resolve(n + 1)).producers == s.producers + [Produced(i), Produced(j)]
            && Step(Step(t, Resolve(n + 1)), Resolve(n)).producers == s.producers + [Produced(j), Produced(i)]
  {
    var t, n := ProduceStep(ProduceStep(s, i, true).0, j, true).0, |s.handshakes|;
    assert t.handshakes[n].intent == i && t.handshakes[n + 1].intent == j;
    AppendAssoc(s.producers, [Produced(i)], [Produced(j)]);
    AppendAssoc(s.producers, [Produced(j)], [Produced(i)]);
    assert [Produced(i)] + [Produced(j)] == [Produced(i), Produced(j)] && [Produced(j)] + [Produced(i)] == [Produced(j), Produced(i)];
    TwoMore(s.producers, Produced(i), Produced(j));
    TwoMore(s.producers, Produced(j), Produced(i));
    FindProducerExact(s.producers, Target(i));
    FindProducerExact(s.producers, Target(j));
    hide OnePerSlot, FindProducer;
  }

  lemma TwoMore(ps: seq<Producer>, a: Producer, b: Producer)
    requires OnePerSlot(ps)
    ensures OnePerSlot(ps + [a, b]) <==>
            SlotOf(a) != SlotOf(b) && FindProducer(ps, SlotOf(a)) == None && FindProducer(ps, SlotOf(b)) == None
  {
    FindProducerExact(ps, SlotOf(a));
    FindProducerExact(ps, SlotOf(b));
    var all := ps + [a, b];
    assert all[|ps|] == a && all[|ps| + 1] == b && forall k | 0 <= k < |ps| :: all[k] == ps[k];
    hide FindProducer, SlotOf;
  }
}
