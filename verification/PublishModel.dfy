/**
 Publishing local tracks: produce calls buffered until the send transport exists, handshakes shared
 per slot, and intents retained across a signalling drop. The send transport has an epoch; closing it
 makes every handshake of that epoch fail. A transport created while another one is in place supersedes
 it without closing it, and handshakes begun on the older one can still succeed.
 */
module PublishModel {
  import opened Common

  type Track = nat
  type HandshakeId = nat
  type Epoch = nat

  const MAX_BUFFERED: nat := 8

  datatype Kind = Audio | Video
  datatype Source = NoSource | Camera | Screen
  datatype Slot = AudioSlot | CameraSlot | ScreenSlot

  datatype Intent = Intent(track: Track, kind: Kind, source: Source, mobile: bool)

  datatype Producer = Producer(kind: Kind, source: Source, track: Track)

  datatype Handshake = Handshake(intent: Intent, epoch: Epoch, settled: bool)

  /** How the promise of a buffered call was taken off the queue. */
  datatype Disposition = Flushed | ResolvedNull | RejectedClosed

  datatype Reply = Null | Existing(producer: Producer) | Joined(handshake: HandshakeId) | Buffered(call: nat)

  /**
   Buffered calls are numbered in arrival order; `dispositions[i]` is what became of call `i`, and the
   calls still buffered are the ones after those.
   */
  datatype State = State(
    producers: seq<Producer>, handshakes: seq<Handshake>, inProgress: map<Slot, HandshakeId>,
    buffered: seq<Intent>, dispositions: seq<Disposition>, retained: seq<Intent>,
    transport: Option<Epoch>, open: set<Epoch>, epochs: Epoch, connected: bool)

  const IDLE := State([], [], map[], [], [], [], None, {}, 0, false)

  datatype Event =
    | Connectivity(up: bool)
    | Produce(intent: Intent, trackLive: bool)
    | TransportReady
    | Resolve(handshake: HandshakeId)
    | Reject(handshake: HandshakeId)
    | Forget(handshake: HandshakeId)
    | CloseProducer(slot: Slot)
    | Retain(live: set<Track>)
    | Replay(live: set<Track>)
    | ClearRetained
    | CloseAll

  /** The tag concurrent calls are shared by. */
  function KeyOf(i: Intent): Slot {
    if i.source == Screen then ScreenSlot else if i.kind == Audio then AudioSlot else CameraSlot
  }

  /** The slot the lookups by kind and by source file a producer under. */
  function SlotOf(p: Producer): Slot {
    if p.kind == Audio then AudioSlot else if p.source == Screen then ScreenSlot else CameraSlot
  }

  function FindProducer(ps: seq<Producer>, slot: Slot): Option<Producer> {
    if ps == [] then None else if SlotOf(ps[0]) == slot then Some(ps[0]) else FindProducer(ps[1..], slot)
  }

  function RemoveFirst(ps: seq<Producer>, slot: Slot): seq<Producer> {
    if ps == [] then [] else if SlotOf(ps[0]) == slot then ps[1..] else [ps[0]] + RemoveFirst(ps[1..], slot)
  }

  function Produced(i: Intent): Producer {
    Producer(i.kind, if i.source == NoSource && i.kind == Video then Camera else i.source, i.track)
  }

  /** A produce call: buffered while there is no transport, else one handshake per slot at most. */
  function ProduceStep(s: State, i: Intent, live: bool): (State, Reply) {
    match s.transport
    case None =>
      if !s.connected || |s.buffered| >= MAX_BUFFERED || !live then (s, Null)
      else (s.(buffered := s.buffered + [i]), Buffered(|s.dispositions| + |s.buffered|))
    case Some(epoch) =>
      var existing := FindProducer(s.producers, KeyOf(i));
      if existing.Some? then (s, Existing(existing.value))
      else if KeyOf(i) in s.inProgress then (s, Joined(s.inProgress[KeyOf(i)]))
      else (s.(handshakes := s.handshakes + [Handshake(i, epoch, false)],
               inProgress := s.inProgress[KeyOf(i) := |s.handshakes|]), Joined(|s.handshakes|))
  }

  function ProduceAll(s: State, intents: seq<Intent>, live: set<Track>): State
    decreases |intents|
  {
    if intents == [] then s
    else ProduceAll(ProduceStep(s, intents[0], intents[0].track in live).0, intents[1..], live)
  }

  function Repeat(d: Disposition, n: nat): (ds: seq<Disposition>)
    ensures |ds| == n && forall i | 0 <= i < n :: ds[i] == d
  {
    seq(n, _ => d)
  }

  /** A published track that is still live, as an intent; the mobile hint of the original call is not kept. */
  function LiveIntent(p: Producer, live: set<Track>): seq<Intent> {
    if p.track !in live then []
    else [Intent(p.track, p.kind, if p.source == NoSource && p.kind == Video then Camera else p.source, false)]
  }

  function LiveIntents(ps: seq<Producer>, live: set<Track>): seq<Intent> {
    if ps == [] then [] else LiveIntent(ps[0], live) + LiveIntents(ps[1..], live)
  }

  /** A handshake that can still succeed. */
  predicate Open(s: State, h: HandshakeId)
    requires h < |s.handshakes|
  {
    !s.handshakes[h].settled && s.handshakes[h].epoch in s.open
  }

  /** A new send transport is in place, and the buffered calls are about to be issued. */
  function Opened(s: State): State {
    s.(transport := Some(s.epochs), open := s.open + {s.epochs}, epochs := s.epochs + 1, buffered := [],
       dispositions := s.dispositions + Repeat(Flushed, |s.buffered|))
  }

  function Current(s: State): set<Epoch> { if s.transport.Some? then {s.transport.value} else {} }

  predicate Possible(s: State, e: Event) {
    match e
    case Resolve(h) => h < |s.handshakes| && Open(s, h)
    case Reject(h) => h < |s.handshakes| && !s.handshakes[h].settled
    case Forget(h) => h < |s.handshakes| && s.handshakes[h].settled
    case _ => true
  }

  function Step(s: State, e: Event): State
    requires Possible(s, e)
  {
    match e
    case Connectivity(up) => s.(connected := up)
    case Produce(i, live) => ProduceStep(s, i, live).0
    case TransportReady => ProduceAll(Opened(s), s.buffered, {})
    case Resolve(h) =>
      s.(handshakes := s.handshakes[h := s.handshakes[h].(settled := true)],
         producers := s.producers + [Produced(s.handshakes[h].intent)])
    case Reject(h) => s.(handshakes := s.handshakes[h := s.handshakes[h].(settled := true)])
    case Forget(h) =>
      var key := KeyOf(s.handshakes[h].intent);
      if key in s.inProgress && s.inProgress[key] == h then s.(inProgress := s.inProgress - {key}) else s
    case CloseProducer(slot) => s.(producers := RemoveFirst(s.producers, slot))
    case Retain(live) =>
      s.(retained := s.retained + LiveIntents(s.producers, live) + s.buffered, buffered := [],
         dispositions := s.dispositions + Repeat(ResolvedNull, |s.buffered|))
    case Replay(live) => ProduceAll(s.(retained := []), s.retained, live)
    case ClearRetained => s.(retained := [])
    case CloseAll =>
      s.(producers := [], inProgress := map[], buffered := [], transport := None, open := s.open - Current(s),
         dispositions := s.dispositions + Repeat(RejectedClosed, |s.buffered|))
  }

  ghost predicate PossibleRun(s: State, es: seq<Event>)
    decreases |es|
  {
    es == [] || (Possible(s, es[0]) && PossibleRun(Step(s, es[0]), es[1..]))
  }

  ghost function Run(s: State, es: seq<Event>): State
    requires PossibleRun(s, es)
    decreases |es|
  {
    if es == [] then s else Run(Step(s, es[0]), es[1..])
  }

  // ----- One producer per slot -----

  /** A screen share carries a video track. */
  predicate WellSourced(i: Intent) { i.source == Screen ==> i.kind == Video }

  ghost predicate AllWellSourced(intents: seq<Intent>) { forall i | i in intents :: WellSourced(i) }

  /** A screen share is a video, and a video says where it comes from. */
  predicate WellFiled(p: Producer) { (p.source == Screen ==> p.kind == Video) && (p.kind == Video ==> p.source != NoSource) }

  ghost predicate OnePerSlot(ps: seq<Producer>) {
    forall i, j | 0 <= i < j < |ps| :: SlotOf(ps[i]) != SlotOf(ps[j])
  }

  /** Open handshakes are the registered ones of their slots, and their slots have no producer yet. */
  ghost predicate Flights(s: State) {
    && (forall k | k in s.inProgress :: s.inProgress[k] < |s.handshakes| && KeyOf(s.handshakes[s.inProgress[k]].intent) == k)
    && (forall h: HandshakeId | h < |s.handshakes| && Open(s, h) ::
          var k := KeyOf(s.handshakes[h].intent);
          k in s.inProgress && s.inProgress[k] == h && FindProducer(s.producers, k) == None)
  }

  ghost predicate Sound(s: State) {
    && OnePerSlot(s.producers) && Flights(s)
    && (s.transport.Some? ==> s.transport.value in s.open && s.buffered == [])
    && (s.transport.None? ==> s.producers == [] && s.inProgress == map[])
    && (forall e | e in s.open :: e < s.epochs)
    && (forall h | h in s.handshakes :: h.epoch < s.epochs && WellSourced(h.intent))
    && AllWellSourced(s.buffered) && AllWellSourced(s.retained)
    && (forall p | p in s.producers :: WellFiled(p))
    && |s.buffered| <= MAX_BUFFERED
  }

  lemma {:induction false} FindProducerExact(ps: seq<Producer>, slot: Slot)
    ensures FindProducer(ps, slot) == None <==> forall p | p in ps :: SlotOf(p) != slot
    ensures FindProducer(ps, slot).Some? ==> FindProducer(ps, slot).value in ps && SlotOf(FindProducer(ps, slot).value) == slot
  {
    if ps != [] {
      FindProducerExact(ps[1..], slot);
      assert ps == [ps[0]] + ps[1..];
    }
  }

  lemma OnePerSlotTail(ps: seq<Producer>)
    requires OnePerSlot(ps) && ps != []
    ensures OnePerSlot(ps[1..]) && forall p | p in ps[1..] :: p in ps && SlotOf(p) != SlotOf(ps[0])
  {
    var rest := ps[1..];
    forall i, j | 0 <= i < j < |rest| ensures SlotOf(rest[i]) != SlotOf(rest[j]) { assert SlotOf(ps[i + 1]) != SlotOf(ps[j + 1]); }
    forall i | 0 <= i < |rest| ensures rest[i] in ps && SlotOf(rest[i]) != SlotOf(ps[0]) { assert SlotOf(ps[0]) != SlotOf(ps[i + 1]); }
  }

  lemma OnePerSlotCons(p: Producer, rest: seq<Producer>)
    requires OnePerSlot(rest) && forall q | q in rest :: SlotOf(q) != SlotOf(p)
    ensures OnePerSlot([p] + rest)
  {
    var all := [p] + rest;
    forall i, j | 0 <= i < j < |all| ensures SlotOf(all[i]) != SlotOf(all[j]) {
      assert all[j] == rest[j - 1] && rest[j - 1] in rest;
      if i > 0 { assert all[i] == rest[i - 1]; }
    }
  }

  /** Closing removes the slot's only producer and leaves the others in place. */
  lemma {:induction false} RemoveFirstExact(ps: seq<Producer>, slot: Slot)
    requires OnePerSlot(ps)
    ensures OnePerSlot(RemoveFirst(ps, slot))
    ensures forall p :: p in RemoveFirst(ps, slot) <==> p in ps && SlotOf(p) != slot
  {
    if ps != [] {
      var rest := ps[1..];
      assert ps == [ps[0]] + rest;
      OnePerSlotTail(ps);
      RemoveFirstExact(rest, slot);
      hide OnePerSlot, SlotOf;
      if SlotOf(ps[0]) != slot { OnePerSlotCons(ps[0], RemoveFirst(rest, slot)); }
    }
  }

  lemma ProduceFlights(s: State, i: Intent, live: bool)
    requires Flights(s)
    ensures Flights(ProduceStep(s, i, live).0)
  {
    hide SlotOf, KeyOf, FindProducer;
    var t := ProduceStep(s, i, live).0;
    assert forall h: HandshakeId | h < |s.handshakes| :: t.handshakes[h] == s.handshakes[h] && Open(t, h) == Open(s, h);
  }

  lemma ProduceSound(s: State, i: Intent, live: bool)
    requires Sound(s) && WellSourced(i)
    ensures Sound(ProduceStep(s, i, live).0)
  {
    ProduceFlights(s, i, live);
    hide WellFiled, WellSourced, SlotOf, KeyOf, OnePerSlot, FindProducer, Flights;
  }

  lemma {:induction false} ProduceAllSound(s: State, intents: seq<Intent>, live: set<Track>)
    requires Sound(s) && AllWellSourced(intents)
    ensures Sound(ProduceAll(s, intents, live))
    decreases |intents|
  {
    if intents != [] {
      assert intents[0] in intents;
      ProduceSound(s, intents[0], intents[0].track in live);
      assert AllWellSourced(intents[1..]);
      hide Sound, ProduceStep;
      ProduceAllSound(ProduceStep(s, intents[0], intents[0].track in live).0, intents[1..], live);
    }
  }

  lemma {:induction false} LiveIntentsWellSourced(ps: seq<Producer>, live: set<Track>)
    requires forall p | p in ps :: WellFiled(p)
    ensures AllWellSourced(LiveIntents(ps, live))
  {
    if ps != [] {
      assert ps[0] in ps;
      LiveIntentsWellSourced(ps[1..], live);
    }
  }

  lemma ResolveSound(s: State, h: HandshakeId)
    requires Sound(s) && Possible(s, Resolve(h))
    ensures Sound(Step(s, Resolve(h)))
  {
    var i := s.handshakes[h].intent;
    var s' := Step(s, Resolve(h));
    assert s.handshakes[h] in s.handshakes && Open(s, h);
    assert SlotOf(Produced(i)) == KeyOf(i);
    FindProducerExact(s.producers, KeyOf(i));
    assert OnePerSlot(s'.producers);
    forall g: HandshakeId | g < |s'.handshakes| && Open(s', g)
      ensures var k := KeyOf(s'.handshakes[g].intent);
              k in s'.inProgress && s'.inProgress[k] == g && FindProducer(s'.producers, k) == None
    {
      var k := KeyOf(s.handshakes[g].intent);
      assert Open(s, g) && k != KeyOf(i);
      FindProducerExact(s.producers, k);
      FindProducerExact(s'.producers, k);
    }
  }

  lemma CloseProducerSound(s: State, slot: Slot)
    requires Sound(s)
    ensures Sound(Step(s, CloseProducer(slot)))
  {
    var s' := Step(s, CloseProducer(slot));
    RemoveFirstExact(s.producers, slot);
    hide RemoveFirst, FindProducer, OnePerSlot;
    forall h: HandshakeId | h < |s.handshakes| && Open(s', h)
      ensures FindProducer(s'.producers, KeyOf(s.handshakes[h].intent)) == None
    {
      assert Open(s, h);
      FindProducerExact(s.producers, KeyOf(s.handshakes[h].intent));
      FindProducerExact(s'.producers, KeyOf(s.handshakes[h].intent));
    }
  }

  lemma ReadySound(s: State)
    requires Sound(s)
    ensures Sound(Step(s, TransportReady))
  {
    var t := Opened(s);
    assert Sound(t) by {
      hide FindProducer, KeyOf, WellFiled, WellSourced, OnePerSlot;
      forall h: HandshakeId | h < |s.handshakes| ensures Open(t, h) == Open(s, h) { assert s.handshakes[h] in s.handshakes; }
    }
    hide Sound, Opened, ProduceAll;
    SoundBuffered(s);
    ProduceAllSound(t, s.buffered, {});
  }

  lemma SoundBuffered(s: State)
    requires Sound(s)
    ensures AllWellSourced(s.buffered)
  {
  }

  lemma RejectSound(s: State, h: HandshakeId)
    requires Sound(s) && Possible(s, Reject(h))
    ensures Sound(Step(s, Reject(h)))
  {
    hide FindProducer, KeyOf, WellFiled, WellSourced, OnePerSlot, ProduceAll, ProduceStep;
    var t := Step(s, Reject(h));
    assert forall g: HandshakeId | g < |s.handshakes| && Open(t, g) :: Open(s, g) && t.handshakes[g] == s.handshakes[g];
    assert s.handshakes[h] in s.handshakes;
  }

  lemma ForgetSound(s: State, h: HandshakeId)
    requires Sound(s) && Possible(s, Forget(h))
    ensures Sound(Step(s, Forget(h)))
  {
    hide FindProducer, KeyOf, WellFiled, WellSourced, OnePerSlot, ProduceAll, ProduceStep;
    var t := Step(s, Forget(h));
    assert forall g: HandshakeId | g < |s.handshakes| :: Open(t, g) == Open(s, g);
  }

  lemma RetainSound(s: State, live: set<Track>)
    requires Sound(s)
    ensures Sound(Step(s, Retain(live)))
  {
    LiveIntentsWellSourced(s.producers, live);
    hide FindProducer, KeyOf, WellFiled, WellSourced, OnePerSlot, ProduceAll, LiveIntents;
    assert forall h: HandshakeId | h < |s.handshakes| :: Open(Step(s, Retain(live)), h) == Open(s, h);
  }

  lemma ReplaySound(s: State, live: set<Track>)
    requires Sound(s)
    ensures Sound(Step(s, Replay(live)))
  {
    var t := s.(retained := []);
    assert Sound(t) by {
      hide FindProducer, KeyOf, WellFiled, WellSourced, OnePerSlot, ProduceAll;
      assert forall h: HandshakeId | h < |s.handshakes| :: Open(t, h) == Open(s, h);
    }
    hide Sound, ProduceAll;
    assert AllWellSourced(s.retained) by { SoundRetained(s); }
    ProduceAllSound(t, s.retained, live);
  }

  lemma SoundRetained(s: State)
    requires Sound(s)
    ensures AllWellSourced(s.retained)
  {
  }

  /** Every handshake that can still succeed is of the transport in place. */
  ghost predicate NoneSuperseded(s: State) {
    forall h: HandshakeId | h < |s.handshakes| && Open(s, h) :: s.transport == Some(s.handshakes[h].epoch)
  }

  lemma CloseAllSound(s: State)
    requires Sound(s) && NoneSuperseded(s)
    ensures Sound(Step(s, CloseAll))
  {
    hide FindProducer, KeyOf, WellFiled, WellSourced, ProduceAll;
    assert forall h: HandshakeId | h < |s.handshakes| :: !Open(Step(s, CloseAll), h);
  }

  /** Screen shares are videos, and nothing is closed while a handshake of a superseded transport is open. */
  ghost predicate Tidy(s: State, e: Event) {
    (e.Produce? ==> WellSourced(e.intent)) && (e.CloseAll? ==> NoneSuperseded(s))
  }

  ghost predicate TidyRun(s: State, es: seq<Event>)
    requires PossibleRun(s, es)
    decreases |es|
  {
    es == [] || (Tidy(s, es[0]) && TidyRun(Step(s, es[0]), es[1..]))
  }

  lemma StepSound(s: State, e: Event)
    requires Sound(s) && Possible(s, e) && Tidy(s, e)
    ensures Sound(Step(s, e))
  {
    match e
    case Produce(i, live) => ProduceSound(s, i, live);
    case TransportReady => ReadySound(s);
    case Resolve(h) => ResolveSound(s, h);
    case Reject(h) => RejectSound(s, h);
    case Forget(h) => ForgetSound(s, h);
    case CloseProducer(slot) => CloseProducerSound(s, slot);
    case Retain(live) => RetainSound(s, live);
    case Replay(live) => ReplaySound(s, live);
    case CloseAll => CloseAllSound(s);
    case _ => hide FindProducer, SlotOf, KeyOf, WellFiled, WellSourced;
  }

  /**
   However produce calls overlap with flushes, drops, replays, second transports and late settlements: at
   most one producer per slot and at most one handshake per slot that can still add one, never both.
   */
  lemma {:induction false} OneProducerPerSlot(s: State, es: seq<Event>)
    requires Sound(s) && PossibleRun(s, es) && TidyRun(s, es)
    ensures Sound(Run(s, es)) && OnePerSlot(Run(s, es).producers)
    ensures var t := Run(s, es);
            forall g: HandshakeId, h: HandshakeId | g < |t.handshakes| && h < |t.handshakes| && Open(t, g) && Open(t, h) ::
              KeyOf(t.handshakes[g].intent) == KeyOf(t.handshakes[h].intent) ==> g == h
    decreases |es|
  {
    if es != [] {
      StepSound(s, es[0]);
      hide Step, Sound, Tidy;
      OneProducerPerSlot(Step(s, es[0]), es[1..]);
    }
  }

  lemma IdleSound()
    ensures Sound(IDLE)
  {
  }

  lemma RunCons(s: State, e: Event, es: seq<Event>)
    requires Possible(s, e) && PossibleRun(Step(s, e), es)
    ensures PossibleRun(s, [e] + es) && Run(s, [e] + es) == Run(Step(s, e), es)
    ensures Tidy(s, e) && TidyRun(Step(s, e), es) ==> TidyRun(s, [e] + es)
  {
    assert ([e] + es)[1..] == es;
  }

  /** One producer per slot in every tidy continuation. */
  ghost predicate SlotsSafe(s: State) {
    forall es | PossibleRun(s, es) && TidyRun(s, es) :: OnePerSlot(Run(s, es).producers)
  }

  /** The state a transport opened after the close leaves one call in. */
  lemma StartedAfterClose(s: State, i: Intent)
    requires s.transport == None && s.producers == [] && s.inProgress == map[] && s.buffered == []
    ensures Step(s, TransportReady) == Opened(s)
    ensures Step(Opened(s), Produce(i, true)) ==
            Opened(s).(handshakes := s.handshakes + [Handshake(i, s.epochs, false)], inProgress := map[KeyOf(i) := |s.handshakes|])
  {
  }

  /** Two handshakes of one slot that both succeed double it. */
  lemma BothSucceed(s: State, g: HandshakeId, h: HandshakeId)
    requires s.producers == [] && g < |s.handshakes| && h < |s.handshakes| && g != h && Open(s, g) && Open(s, h)
    requires s.handshakes[g].intent == s.handshakes[h].intent
    ensures PossibleRun(s, [Resolve(g)] + ([Resolve(h)] + [])) && TidyRun(s, [Resolve(g)] + ([Resolve(h)] + []))
    ensures !OnePerSlot(Run(s, [Resolve(g)] + ([Resolve(h)] + [])).producers)
  {
    var i := s.handshakes[g].intent;
    var t := Step(s, Resolve(g));
    assert t.producers == [Produced(i)] && t.handshakes[h] == s.handshakes[h] && Open(t, h);
    var u := Step(t, Resolve(h));
    assert u.producers == [Produced(i), Produced(i)];
    assert SlotOf(u.producers[0]) == SlotOf(u.producers[1]);
    hide Step, Produced;
    RunCons(t, Resolve(h), []);
    RunCons(s, Resolve(g), [Resolve(h)] + []);
    assert Run(u, []) == u;
  }

  /** The superseded handshake succeeds after a new one of its slot has. */
  lemma SupersededDoubles(s: State, h: HandshakeId)
    requires Sound(s) && h < |s.handshakes| && Open(s, h) && s.transport != Some(s.handshakes[h].epoch)
    ensures var closed := Step(s, CloseAll); var i := s.handshakes[h].intent;
            var es := [TransportReady] + ([Produce(i, true)] + ([Resolve(|s.handshakes|)] + ([Resolve(h)] + [])));
            PossibleRun(closed, es) && TidyRun(closed, es) && !OnePerSlot(Run(closed, es).producers)
  {
    var i, n := s.handshakes[h].intent, |s.handshakes|;
    assert s.handshakes[h] in s.handshakes && s.handshakes[h].epoch in s.open;
    var s0 := Step(s, CloseAll);
    var s1 := Opened(s0);
    assert s0.handshakes == s.handshakes && s1.producers == [];
    StartedAfterClose(s0, i);
    hide Step, Sound, OnePerSlot;
    var s2 := Step(s1, Produce(i, true));
    BothSucceed(s2, n, h);
    RunCons(s1, Produce(i, true), [Resolve(n)] + ([Resolve(h)] + []));
    RunCons(s0, TransportReady, [Produce(i, true)] + ([Resolve(n)] + ([Resolve(h)] + [])));
  }

  /**
   What a second transport costs: after everything is closed the slots stay safe if and only if no handshake
   of a superseded transport was open, since closing forgets the shared entry and closes only the last one.
   */
  lemma ClosedSafeExactly(s: State)
    requires Sound(s)
    ensures SlotsSafe(Step(s, CloseAll)) <==> NoneSuperseded(s)
  {
    var closed := Step(s, CloseAll);
    if NoneSuperseded(s) {
      CloseAllSound(s);
      hide Step, Sound;
      forall es | PossibleRun(closed, es) && TidyRun(closed, es) ensures OnePerSlot(Run(closed, es).producers) {
        OneProducerPerSlot(closed, es);
      }
    } else {
      var h: HandshakeId :| h < |s.handshakes| && Open(s, h) && s.transport != Some(s.handshakes[h].epoch);
      SupersededDoubles(s, h);
    }
  }

  /** Publishing an audio track as a screen share does break it: the sharing key and the lookup differ. */
  lemma AudioScreenShareDoubles(a: Track, b: Track)
    ensures var es := [TransportReady] + ([Produce(Intent(a, Audio, NoSource, false), true)] + ([Resolve(0)]
                       + ([Produce(Intent(b, Audio, Screen, false), true)] + ([Resolve(1)] + []))));
            PossibleRun(IDLE, es) && !OnePerSlot(Run(IDLE, es).producers)
  {
    var i, j := Intent(a, Audio, NoSource, false), Intent(b, Audio, Screen, false);
    var s1 := IDLE.(transport := Some(0), open := {0}, epochs := 1, dispositions := []);
    assert Step(IDLE, TransportReady) == s1 by { assert [] + Repeat(Flushed, 0) == []; }
    var s2 := s1.(handshakes := [Handshake(i, 0, false)], inProgress := map[AudioSlot := 0]);
    assert Step(s1, Produce(i, true)) == s2;
    var s3 := s2.(handshakes := [Handshake(i, 0, true)], producers := [Produced(i)]);
    assert Step(s2, Resolve(0)) == s3;
    var s4 := s3.(handshakes := [Handshake(i, 0, true), Handshake(j, 0, false)],
                  inProgress := map[AudioSlot := 0, ScreenSlot := 1]);
    assert FindProducer(s3.producers, ScreenSlot) == None by { assert SlotOf(Produced(i)) == AudioSlot; }
    assert Step(s3, Produce(j, true)) == s4;
    var s5 := s4.(handshakes := [Handshake(i, 0, true), Handshake(j, 0, true)], producers := [Produced(i), Produced(j)]);
    assert Step(s4, Resolve(1)) == s5;
    assert SlotOf(s5.producers[0]) == SlotOf(s5.producers[1]);
    hide Step, Produced;
    RunCons(s4, Resolve(1), []);
    RunCons(s3, Produce(j, true), [Resolve(1)] + []);
    RunCons(s2, Resolve(0), [Produce(j, true)] + ([Resolve(1)] + []));
    RunCons(s1, Produce(i, true), [Resolve(0)] + ([Produce(j, true)] + ([Resolve(1)] + [])));
    RunCons(IDLE, TransportReady, [Produce(i, true)] + ([Resolve(0)] + ([Produce(j, true)] + ([Resolve(1)] + []))));
    assert Run(s5, []) == s5;
  }

  // ----- What a call gets, and what each event changes -----

  /** The producer that a call for this track and source asks for: the screen's, or the one of its kind that is no screen. */
  ghost predicate Serves(p: Producer, i: Intent) {
    if i.source == Screen then p.kind == Video && p.source == Screen
    else p.kind == i.kind && !(p.kind == Video && p.source == Screen)
  }

  /** The first producer that serves the call, if any. */
  ghost predicate FirstServing(ps: seq<Producer>, i: Intent, found: Option<Producer>) {
    match found
    case None => forall k | 0 <= k < |ps| :: !Serves(ps[k], i)
    case Some(p) => exists k | 0 <= k < |ps| :: ps[k] == p && Serves(p, i) && forall j | 0 <= j < k :: !Serves(ps[j], i)
  }

  lemma {:induction false} FindsFirst(ps: seq<Producer>, i: Intent)
    ensures FirstServing(ps, i, FindProducer(ps, KeyOf(i)))
  {
    if ps != [] {
      var found, rest := FindProducer(ps, KeyOf(i)), ps[1..];
      assert Serves(ps[0], i) <==> SlotOf(ps[0]) == KeyOf(i);
      FindsFirst(rest, i);
      if SlotOf(ps[0]) == KeyOf(i) {
        assert ps[0] == found.value;
      } else if found.Some? {
        var k :| 0 <= k < |rest| && rest[k] == found.value && Serves(rest[k], i) && forall j | 0 <= j < k :: !Serves(rest[j], i);
        assert ps[k + 1] == found.value;
        assert forall j | 0 <= j < k + 1 :: j > 0 ==> ps[j] == rest[j - 1];
      } else {
        assert forall k | 0 < k < |ps| :: ps[k] == rest[k - 1];
      }
    }
  }

  /** Two calls share a handshake exactly if both are for the screen, or neither is and they are of one kind. */
  lemma SharedExactly(i: Intent, j: Intent)
    ensures KeyOf(i) == KeyOf(j) <==> (i.source == Screen && j.source == Screen) || (i.source != Screen && j.source != Screen && i.kind == j.kind)
    ensures Serves(Produced(i), i) <==> WellSourced(i)
    ensures Produced(i).track == i.track && Produced(i).kind == i.kind
    ensures Produced(i).source == if i.source == NoSource && i.kind == Video then Camera else i.source
  {
  }

  /**
   A call without a transport is refused when unconnected, when eight are buffered or when its track has
   ended, and buffered otherwise. With a transport it gets the producer that serves it, or the handshake
   under way for its slot, or a new one.
   */
  lemma CallExactly(s: State, i: Intent, live: bool)
    ensures var (t, reply) := ProduceStep(s, i, live);
            && (s.transport.None? ==>
                  if !s.connected || |s.buffered| >= 8 || !live then t == s && reply == Null
                  else t == s.(buffered := s.buffered + [i]) && reply == Buffered(|s.dispositions| + |s.buffered|))
            && (s.transport.Some? ==>
                  && !reply.Null? && !reply.Buffered?
                  && FirstServing(s.producers, i, if reply.Existing? then Some(reply.producer) else None)
                  && (reply.Existing? || KeyOf(i) in s.inProgress ==> t == s)
                  && (reply.Joined? ==> KeyOf(i) in t.inProgress && t.inProgress[KeyOf(i)] == reply.handshake)
                  && (reply.Joined? && KeyOf(i) !in s.inProgress ==>
                        reply.handshake == |s.handshakes|
                        && t == s.(handshakes := s.handshakes + [Handshake(i, s.transport.value, false)], inProgress := t.inProgress)
                        && t.inProgress - {KeyOf(i)} == s.inProgress - {KeyOf(i)}))
  {
    FindsFirst(s.producers, i);
    hide FindProducer, KeyOf, FirstServing;
  }

  /** Exactly this handshake has settled. */
  ghost predicate Settles(s: State, t: State, h: HandshakeId) {
    && h < |s.handshakes| && |t.handshakes| == |s.handshakes|
    && t.handshakes[h].settled && t.handshakes[h].intent == s.handshakes[h].intent && t.handshakes[h].epoch == s.handshakes[h].epoch
    && forall g | 0 <= g < |s.handshakes| && g != h :: t.handshakes[g] == s.handshakes[g]
  }

  /** What the events that issue no calls do. */
  lemma EventExactly(s: State, e: Event)
    requires Possible(s, e)
    ensures var t := Step(s, e);
            match e
            case Connectivity(up) => t == s.(connected := up)
            case Resolve(h) =>
              Settles(s, t, h) && t == s.(handshakes := t.handshakes, producers := s.producers + [Produced(s.handshakes[h].intent)])
            case Reject(h) => Settles(s, t, h) && t == s.(handshakes := t.handshakes)
            case Forget(h) =>
              t == s.(inProgress := t.inProgress)
              && (forall k :: k in t.inProgress <==> k in s.inProgress && !(k == KeyOf(s.handshakes[h].intent) && s.inProgress[k] == h))
              && (forall k | k in t.inProgress :: t.inProgress[k] == s.inProgress[k])
            case CloseProducer(slot) => t == s.(producers := RemoveFirst(s.producers, slot))
            case ClearRetained => t.retained == [] && t == s.(retained := [])
            case CloseAll =>
              && t.producers == [] && t.inProgress == map[] && t.buffered == [] && t.transport == None
              && t.handshakes == s.handshakes && t.retained == s.retained && t.epochs == s.epochs && t.connected == s.connected
              && (forall x :: x in t.open <==> x in s.open && s.transport != Some(x))
            case _ => true
  {
    hide ProduceAll, ProduceStep, LiveIntents, RemoveFirst, KeyOf;
  }

  lemma {:induction false} InFlightExactly(hs: seq<Handshake>, open: set<Epoch>, i: Intent)
    ensures i in InFlight(hs, open) <==> exists h | 0 <= h < |hs| :: hs[h].intent == i && !hs[h].settled && hs[h].epoch in open
  {
    if hs != [] {
      var rest := hs[1..];
      InFlightExactly(rest, open, i);
      assert forall h | 0 < h < |hs| :: hs[h] == rest[h - 1];
      if h :| 0 <= h < |rest| && rest[h].intent == i && !rest[h].settled && rest[h].epoch in open { assert hs[h + 1] == rest[h]; }
    }
  }

  // ----- Buffered calls -----

  lemma {:induction false} ProduceAllCalls(s: State, intents: seq<Intent>, live: set<Track>)
    ensures ProduceAll(s, intents, live).dispositions == s.dispositions
    ensures |ProduceAll(s, intents, live).buffered| >= |s.buffered|
    decreases |intents|
  {
    if intents != [] {
      ProduceAllCalls(ProduceStep(s, intents[0], intents[0].track in live).0, intents[1..], live);
    }
  }

  function CallsMade(s: State): nat { |s.dispositions| + |s.buffered| }

  /**
   Every buffered call is settled at most once and never forgotten: over any run, call `i` is either
   still buffered or has one disposition, which no later event changes.
   */
  lemma {:induction false} SettledOnce(s: State, es: seq<Event>)
    requires PossibleRun(s, es)
    ensures s.dispositions <= Run(s, es).dispositions
    ensures CallsMade(s) <= CallsMade(Run(s, es))
    decreases |es|
  {
    if es != [] {
      var s' := Step(s, es[0]);
      assert s.dispositions <= s'.dispositions && CallsMade(s) <= CallsMade(s') by {
        match es[0]
        case TransportReady =>
          ProduceAllCalls(Opened(s), s.buffered, {});
        case Replay(live) => ProduceAllCalls(s.(retained := []), s.retained, live);
        case _ =>
      }
      hide Step;
      SettledOnce(s', es[1..]);
    }
  }

  /** Once the transport opens, the signal drops or everything closes, no buffered call is left unsettled. */
  lemma QueueEmptied(s: State, e: Event)
    requires e.TransportReady? || e.Retain? || e.CloseAll?
    ensures Step(s, e).buffered == []
    ensures Step(s, e).dispositions ==
            s.dispositions + Repeat(if e.TransportReady? then Flushed else if e.Retain? then ResolvedNull else RejectedClosed,
                                    |s.buffered|)
  {
    if e.TransportReady? {
      ProduceAllCalls(Opened(s), s.buffered, {});
      ProduceAllKeepsTransport(Opened(s), s.buffered, {});
    }
  }

  lemma {:induction false} ProduceAllKeepsTransport(s: State, intents: seq<Intent>, live: set<Track>)
    ensures ProduceAll(s, intents, live).transport == s.transport && ProduceAll(s, intents, live).open == s.open
    ensures ProduceAll(s, intents, live).producers == s.producers
    ensures ProduceAll(s, intents, live).retained == s.retained
    ensures s.transport.Some? ==> ProduceAll(s, intents, live).buffered == s.buffered
    decreases |intents|
  {
    if intents != [] {
      ProduceAllKeepsTransport(ProduceStep(s, intents[0], intents[0].track in live).0, intents[1..], live);
    }
  }

  // ----- A drop -----

  /** What the handshakes still under way want published. */
  function InFlight(hs: seq<Handshake>, open: set<Epoch>): seq<Intent> {
    if hs == [] then []
    else (if !hs[0].settled && hs[0].epoch in open then [hs[0].intent] else []) + InFlight(hs[1..], open)
  }

  /** Everything the user wants published: live published tracks, buffered calls, handshakes under way. */
  function Wanted(s: State, live: set<Track>): seq<Intent> {
    LiveIntents(s.producers, live) + s.buffered + InFlight(s.handshakes, s.open)
  }

  /** The signalling drop: retain, then close everything. */
  function Drop(s: State, live: set<Track>): State {
    Step(Step(s, Retain(live)), CloseAll)
  }

  /** Everything retained by a drop: what earlier drops retained, the live published tracks, the buffered calls. */
  function Kept(s: State, live: set<Track>): seq<Intent> { s.retained + LiveIntents(s.producers, live) + s.buffered }

  lemma DropFacts(s: State, live: set<Track>)
    ensures var d := Drop(s, live);
            && d.retained == Kept(s, live) && d.transport == None && d.buffered == [] && d.producers == []
            && d.inProgress == map[] && d.open == s.open - Current(s) && d.handshakes == s.handshakes && d.epochs == s.epochs && d.connected == s.connected
  {
    hide LiveIntents, ProduceAll, ProduceStep, Repeat;
  }

  /** A drop adds every wanted intent to what is retained exactly when no handshake was under way. */
  lemma DropRetainsExactly(s: State, live: set<Track>)
    ensures multiset(Drop(s, live).retained) == multiset(s.retained) + multiset(Wanted(s, live))
            <==> InFlight(s.handshakes, s.open) == []
  {
    DropFacts(s, live);
    hide Drop, LiveIntents, InFlight;
    var kept, flying := LiveIntents(s.producers, live) + s.buffered, InFlight(s.handshakes, s.open);
    AppendAssoc(s.retained, LiveIntents(s.producers, live), s.buffered);
    assert multiset(s.retained + kept) == multiset(s.retained) + multiset(kept);
    assert multiset(kept + flying) == multiset(kept) + multiset(flying);
    if flying == [] {
      assert kept + flying == kept;
    } else {
      assert multiset(flying)[flying[0]] > 0;
      assert (multiset(s.retained) + multiset(Wanted(s, live)))[flying[0]] > multiset(Drop(s, live).retained)[flying[0]];
    }
  }

  // ----- Replay -----

  /** The first intents of live tracks, up to the room left in the buffer. */
  function Admitted(intents: seq<Intent>, live: set<Track>, room: nat): seq<Intent> {
    if intents == [] || room == 0 then []
    else if intents[0].track in live then [intents[0]] + Admitted(intents[1..], live, room - 1)
    else Admitted(intents[1..], live, room)
  }

  /** Replaying without a transport buffers the live intents in order until eight are held. */
  lemma {:induction false} ReplayBuffers(s: State, intents: seq<Intent>, live: set<Track>)
    requires s.transport == None && s.connected && |s.buffered| <= MAX_BUFFERED
    ensures ProduceAll(s, intents, live) ==
            s.(buffered := s.buffered + Admitted(intents, live, MAX_BUFFERED - |s.buffered|))
    decreases |intents|
  {
    if intents == [] {
      assert s.buffered + [] == s.buffered;
    } else {
      var t := ProduceStep(s, intents[0], intents[0].track in live).0;
      ReplayBuffers(t, intents[1..], live);
      var room := MAX_BUFFERED - |s.buffered|;
      if room == 0 {
        assert Admitted(intents[1..], live, 0) == [];
      } else if intents[0].track in live {
        assert s.buffered + ([intents[0]] + Admitted(intents[1..], live, room - 1)) == t.buffered + Admitted(intents[1..], live, room - 1);
      }
    }
  }

  lemma {:induction false} AdmittedAll(intents: seq<Intent>, live: set<Track>, room: nat)
    requires |intents| <= room && forall i | i in intents :: i.track in live
    ensures Admitted(intents, live, room) == intents
  {
    if intents != [] {
      assert intents == [intents[0]] + intents[1..];
      AdmittedAll(intents[1..], live, room - 1);
    }
  }

  // ----- A reconnect -----

  ghost predicate KeysDistinct(intents: seq<Intent>) {
    forall i, j | 0 <= i < j < |intents| :: KeyOf(intents[i]) != KeyOf(intents[j])
  }

  function Launched(intents: seq<Intent>, epoch: Epoch): (hs: seq<Handshake>)
    ensures |hs| == |intents| && forall i | 0 <= i < |hs| :: hs[i] == Handshake(intents[i], epoch, false)
  {
    seq(|intents|, i requires 0 <= i < |intents| => Handshake(intents[i], epoch, false))
  }

  /** The intents that start a handshake when issued in order: the first of each slot that is not taken. */
  function Starters(intents: seq<Intent>, taken: set<Slot>): seq<Intent> {
    if intents == [] then []
    else if KeyOf(intents[0]) in taken then Starters(intents[1..], taken)
    else [intents[0]] + Starters(intents[1..], taken + {KeyOf(intents[0])})
  }

  /** Only intents for free slots start. */
  lemma {:induction false} StartersFree(intents: seq<Intent>, taken: set<Slot>)
    ensures forall i | i in Starters(intents, taken) :: i in intents && KeyOf(i) !in taken
  {
    if intents != [] {
      hide KeyOf;
      StartersFree(intents[1..], taken);
      StartersFree(intents[1..], taken + {KeyOf(intents[0])});
    }
  }

  lemma KeysDistinctCons(i: Intent, rest: seq<Intent>)
    requires KeysDistinct(rest) && forall j | j in rest :: KeyOf(j) != KeyOf(i)
    ensures KeysDistinct([i] + rest)
  {
    var all := [i] + rest;
    forall x, y | 0 <= x < y < |all| ensures KeyOf(all[x]) != KeyOf(all[y]) {
      assert all[y] == rest[y - 1] && rest[y - 1] in rest;
      if x > 0 { assert all[x] == rest[x - 1]; }
    }
  }

  /** No two that start are for one slot. */
  lemma {:induction false} StartersDistinct(intents: seq<Intent>, taken: set<Slot>)
    ensures KeysDistinct(Starters(intents, taken))
  {
    if intents != [] {
      var i := intents[0];
      StartersDistinct(intents[1..], taken);
      StartersDistinct(intents[1..], taken + {KeyOf(i)});
      StartersFree(intents[1..], taken + {KeyOf(i)});
      hide KeysDistinct, KeyOf;
      if KeyOf(i) !in taken { KeysDistinctCons(i, Starters(intents[1..], taken + {KeyOf(i)})); }
    }
  }

  /** Every free slot asked for is started for. */
  lemma {:induction false} StartersCover(intents: seq<Intent>, taken: set<Slot>, i: Intent)
    requires i in intents && KeyOf(i) !in taken
    ensures exists j :: j in Starters(intents, taken) && KeyOf(j) == KeyOf(i)
  {
    var first, rest := intents[0], intents[1..];
    assert intents == [first] + rest;
    hide KeyOf;
    if KeyOf(first) in taken {
      StartersCover(rest, taken, i);
    } else if KeyOf(first) == KeyOf(i) {
      assert first in [first] + Starters(rest, taken + {KeyOf(first)});
    } else {
      StartersCover(rest, taken + {KeyOf(first)}, i);
    }
  }

  /** Intents of different free slots all start. */
  lemma {:induction false} StartersAll(intents: seq<Intent>, taken: set<Slot>)
    requires KeysDistinct(intents) && forall i | i in intents :: KeyOf(i) !in taken
    ensures Starters(intents, taken) == intents
  {
    if intents != [] {
      var i, rest := intents[0], intents[1..];
      assert intents == [i] + rest && i in intents;
      forall k | 0 <= k < |rest| ensures KeyOf(rest[k]) !in taken + {KeyOf(i)} {
        assert rest[k] == intents[k + 1] && intents[k + 1] in intents && KeyOf(intents[0]) != KeyOf(intents[k + 1]);
      }
      forall x, y | 0 <= x < y < |rest| ensures KeyOf(rest[x]) != KeyOf(rest[y]) { assert KeyOf(intents[x + 1]) != KeyOf(intents[y + 1]); }
      StartersAll(rest, taken + {KeyOf(i)});
    }
  }

  lemma LaunchedCons(i: Intent, rest: seq<Intent>, epoch: Epoch)
    ensures Launched([i] + rest, epoch) == [Handshake(i, epoch, false)] + Launched(rest, epoch)
  {
  }

  lemma StartsFirst(s: State, i: Intent, live: bool)
    requires s.transport.Some? && s.producers == []
    ensures ProduceStep(s, i, live).0 ==
            if KeyOf(i) in s.inProgress then s
            else s.(handshakes := s.handshakes + [Handshake(i, s.transport.value, false)],
                    inProgress := s.inProgress[KeyOf(i) := |s.handshakes|])
  {
  }

  lemma StartersHead(i: Intent, rest: seq<Intent>, taken: set<Slot>)
    ensures Starters([i] + rest, taken) ==
            if KeyOf(i) in taken then Starters(rest, taken) else [i] + Starters(rest, taken + {KeyOf(i)})
  {
    assert ([i] + rest)[1..] == rest;
  }

  /** With an open transport and nothing published, the first intent of each slot starts a handshake, the others share it. */
  lemma {:induction false} FlushStarts(s: State, intents: seq<Intent>, live: set<Track>)
    requires s.transport.Some? && s.producers == []
    ensures ProduceAll(s, intents, live).handshakes ==
            s.handshakes + Launched(Starters(intents, s.inProgress.Keys), s.transport.value)
    decreases |intents|
  {
    if intents == [] {
      assert s.handshakes + Launched([], s.transport.value) == s.handshakes;
    } else {
      hide *;
      var i, rest := intents[0], intents[1..];
      assert intents == [i] + rest;
      StartsFirst(s, i, i.track in live);
      ProduceAllCons(s, i, rest, live);
      StartersHead(i, rest, s.inProgress.Keys);
      FlushStarts(ProduceStep(s, i, i.track in live).0, rest, live);
      if KeyOf(i) !in s.inProgress {
        var later := Starters(rest, s.inProgress.Keys + {KeyOf(i)});
        assert s.inProgress[KeyOf(i) := |s.handshakes|].Keys == s.inProgress.Keys + {KeyOf(i)};
        LaunchedCons(i, later, s.transport.value);
        AppendAssoc(s.handshakes, [Handshake(i, s.transport.value, false)], Launched(later, s.transport.value));
      }
    }
  }

  lemma ProduceAllCons(s: State, i: Intent, rest: seq<Intent>, live: set<Track>)
    ensures ProduceAll(s, [i] + rest, live) == ProduceAll(ProduceStep(s, i, i.track in live).0, rest, live)
  {
    assert ([i] + rest)[1..] == rest;
  }

  lemma {:induction false} LiveIntentsOfSlots(ps: seq<Producer>, live: set<Track>)
    requires OnePerSlot(ps) && forall p | p in ps :: WellFiled(p)
    ensures KeysDistinct(LiveIntents(ps, live))
    ensures forall i | i in LiveIntents(ps, live) :: !i.mobile && i.track in live && exists p :: p in ps && SlotOf(p) == KeyOf(i)
    ensures |LiveIntents(ps, live)| <= |ps|
  {
    if ps != [] {
      var rest := ps[1..];
      assert ps == [ps[0]] + rest;
      OnePerSlotTail(ps);
      LiveIntentsOfSlots(rest, live);
      var tail := LiveIntents(rest, live);
      var all := LiveIntents(ps, live);
      assert ps[0] in ps;
      if ps[0].track in live {
        assert KeyOf(all[0]) == SlotOf(ps[0]) && all[1..] == tail;
        forall i, j | 0 <= i < j < |all| ensures KeyOf(all[i]) != KeyOf(all[j]) {
          assert all[j] == tail[j - 1] && tail[j - 1] in tail;
          if i > 0 { assert all[i] == tail[i - 1]; }
        }
      } else {
        assert all == tail;
      }
    }
  }

  lemma ThreeSlots(a: Slot, b: Slot, c: Slot, d: Slot)
    ensures a == b || a == c || a == d || b == c || b == d || c == d
  {
  }

  lemma AtMostThree(ps: seq<Producer>)
    requires OnePerSlot(ps)
    ensures |ps| <= 3
  {
    if |ps| > 3 { ThreeSlots(SlotOf(ps[0]), SlotOf(ps[1]), SlotOf(ps[2]), SlotOf(ps[3])); }
  }

  /** What the replay can still publish: the first eight kept intents whose tracks are still live. */
  function Surviving(s: State, live: set<Track>, still: set<Track>): seq<Intent> {
    Admitted(Kept(s, live), still, MAX_BUFFERED)
  }

  lemma ReplayAfterDrop(s: State, live: set<Track>, still: set<Track>)
    requires s.connected
    ensures Step(Drop(s, live), Replay(still)) == Drop(s, live).(retained := [], buffered := Surviving(s, live, still))
  {
    var dropped := Drop(s, live);
    DropFacts(s, live);
    assert Step(dropped, Replay(still)) == ProduceAll(dropped.(retained := []), Kept(s, live), still);
    hide Step, ProduceAll, Drop, Admitted, Kept;
    ReplayBuffers(dropped.(retained := []), Kept(s, live), still);
    assert [] + Surviving(s, live, still) == Surviving(s, live, still);
  }

  /** The new transport starts one handshake for each slot among the buffered intents. */
  lemma ReadyStarts(s: State)
    requires s.transport == None && s.producers == [] && s.inProgress == map[]
    ensures var t := Step(s, TransportReady);
            && t.handshakes == s.handshakes + Launched(Starters(s.buffered, {}), s.epochs)
            && t.transport == Some(s.epochs) && t.retained == s.retained && t.buffered == [] && t.producers == []
            && s.epochs in t.open
  {
    assert Opened(s).inProgress.Keys == {};
    FlushStarts(Opened(s), s.buffered, {});
    ProduceAllKeepsTransport(Opened(s), s.buffered, {});
  }

  /**
   A signalling blip in any state: after the drop, the rejoin's replay and the new transport, exactly one
   new handshake is under way for each slot among the live published tracks, the buffered calls and what
   was retained before, for the first of them in that order, of the first eight whose tracks still live.
   */
  lemma ReconnectRoundTrip(s: State, live: set<Track>, still: set<Track>)
    requires s.connected
    ensures var back := Step(Step(Drop(s, live), Replay(still)), TransportReady);
            && back.handshakes == s.handshakes + Launched(Starters(Surviving(s, live, still), {}), s.epochs)
            && back.transport == Some(s.epochs) && s.epochs in back.open
            && back.buffered == [] && back.retained == [] && back.producers == []
  {
    hide Step, Drop, Surviving, Starters, Launched;
    DropFacts(s, live);
    ReplayAfterDrop(s, live, still);
    ReadyStarts(Step(Drop(s, live), Replay(still)));
  }

  /** With nothing retained before, and no track ended since, nothing is lost to the limit of eight. */
  lemma SurvivingAll(s: State, live: set<Track>, still: set<Track>)
    requires Sound(s) && s.retained == [] && live <= still && forall i | i in s.buffered :: i.track in still
    ensures Surviving(s, live, still) == LiveIntents(s.producers, live) + s.buffered
  {
    LiveIntentsOfSlots(s.producers, live);
    AtMostThree(s.producers);
    var intents := LiveIntents(s.producers, live);
    assert [] + intents == intents;
    assert |intents + s.buffered| <= MAX_BUFFERED;
    AdmittedAll(intents + s.buffered, still, MAX_BUFFERED);
  }

  /** The published tracks that are still live. */
  function LiveProducers(ps: seq<Producer>, live: set<Track>): seq<Producer> {
    if ps == [] then [] else (if ps[0].track in live then [ps[0]] else []) + LiveProducers(ps[1..], live)
  }

  function ProducedAll(intents: seq<Intent>): seq<Producer> {
    if intents == [] then [] else [Produced(intents[0])] + ProducedAll(intents[1..])
  }

  /** The given handshakes succeed, one after another. */
  function Resolves(h: HandshakeId, n: nat): seq<Event>
    decreases n
  {
    if n == 0 then [] else [Resolve(h)] + Resolves(h + 1, n - 1)
  }

  lemma {:induction false} LiveProduced(ps: seq<Producer>, live: set<Track>)
    requires forall p | p in ps :: WellFiled(p)
    ensures ProducedAll(LiveIntents(ps, live)) == LiveProducers(ps, live)
  {
    if ps != [] {
      assert ps[0] in ps;
      LiveProduced(ps[1..], live);
      var first, rest := LiveIntent(ps[0], live), LiveIntents(ps[1..], live);
      if ps[0].track in live {
        assert (first + rest)[1..] == rest && Produced(first[0]) == ps[0];
      } else {
        assert first + rest == rest;
      }
    }
  }

  lemma {:induction false} ResolveAll(s: State, h: HandshakeId, intents: seq<Intent>)
    requires s.transport.Some? && s.transport.value in s.open && h + |intents| <= |s.handshakes|
    requires forall i | 0 <= i < |intents| :: s.handshakes[h + i] == Handshake(intents[i], s.transport.value, false)
    ensures PossibleRun(s, Resolves(h, |intents|))
    ensures Run(s, Resolves(h, |intents|)).producers == s.producers + ProducedAll(intents)
    decreases |intents|
  {
    if intents == [] {
      assert s.producers + [] == s.producers;
    } else {
      assert s.handshakes[h + 0] == Handshake(intents[0], s.transport.value, false);
      assert Possible(s, Resolve(h));
      var t, rest := Step(s, Resolve(h)), intents[1..];
      assert t.producers == s.producers + [Produced(intents[0])];
      forall i | 0 <= i < |rest| ensures t.handshakes[h + 1 + i] == Handshake(rest[i], t.transport.value, false) {
        assert s.handshakes[h + (i + 1)] == Handshake(intents[i + 1], s.transport.value, false);
      }
      hide Step, Possible, Produced;
      ResolveAll(t, h + 1, rest);
      RunCons(s, Resolve(h), Resolves(h + 1, |rest|));
      AppendAssoc(s.producers, [Produced(intents[0])], ProducedAll(rest));
    }
  }

  lemma LaunchedAt(s: State, before: seq<Handshake>, intents: seq<Intent>, epoch: Epoch)
    requires s.handshakes == before + Launched(intents, epoch)
    ensures forall i | 0 <= i < |intents| :: s.handshakes[|before| + i] == Handshake(intents[i], epoch, false)
  {
  }

  /** Once the handshakes of the reconnect have succeeded, exactly those intents are published, in that order. */
  lemma ReconnectRestores(s: State, live: set<Track>, still: set<Track>)
    requires s.connected
    ensures var back := Step(Step(Drop(s, live), Replay(still)), TransportReady);
            var intents := Starters(Surviving(s, live, still), {});
            PossibleRun(back, Resolves(|s.handshakes|, |intents|))
            && Run(back, Resolves(|s.handshakes|, |intents|)).producers == ProducedAll(intents)
  {
    hide Step, Drop, Surviving, Starters, Resolves, ProducedAll, Launched;
    ReconnectRoundTrip(s, live, still);
    var back, intents := Step(Step(Drop(s, live), Replay(still)), TransportReady), Starters(Surviving(s, live, still), {});
    LaunchedAt(back, s.handshakes, intents, s.epochs);
    ResolveAll(back, |s.handshakes|, intents);
    assert [] + ProducedAll(intents) == ProducedAll(intents);
  }

  /**
   With no call buffered or retained from before, and no track ended since, the reconnect publishes exactly
   the live tracks published before the drop, each of its kind and source, in the same order.
   */
  lemma ReconnectSame(s: State, live: set<Track>, still: set<Track>)
    requires Sound(s) && s.retained == [] && s.buffered == [] && live <= still
    ensures ProducedAll(Starters(Surviving(s, live, still), {})) == LiveProducers(s.producers, live)
  {
    var intents := LiveIntents(s.producers, live);
    SurvivingAll(s, live, still);
    LiveIntentsOfSlots(s.producers, live);
    assert intents + [] == intents;
    StartersAll(intents, {});
    LiveProduced(s.producers, live);
  }
}
