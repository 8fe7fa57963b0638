/**
 UDP port ownership of the egress service, with `startPipeline` interleaved at each `openTap` and
 each SDP write. Overlapping rebuilds of one session push into the same tap list, so every port has
 to be followed to its one owner: a tap of a session, an `openTap` in progress, or nobody, when the
 `openTap` it was reserved for failed.
 */
module EgressPorts {
  import opened Common

  type SessionId = nat
  type PipelineId = nat
  type Port = int

  const MEDIA_PORT_MIN: Port := 42000
  const MEDIA_PORT_MAX: Port := 42100

  datatype Owner = Tap(session: SessionId) | Opening(pipeline: PipelineId) | Lost

  /** One activation of startPipeline; `port` is reserved for the `openTap` it awaits. */
  datatype Pipeline = Pipeline(session: SessionId, port: Option<Port>, remaining: nat)

  /** `owner` has the reserved ports as its keys; `nextPipeline` numbers the activations. */
  datatype State = State(
    owner: map<Port, Owner>, taps: map<SessionId, seq<Port>>, pipelines: map<PipelineId, Pipeline>, nextPipeline: PipelineId)

  const IDLE := State(map[], map[], map[], 0)

  datatype Event =
    | StartPipeline(session: SessionId, tapCount: nat)
    | TapOpened(pipeline: PipelineId)
    | TapFailed(pipeline: PipelineId)
    | SdpWritten(pipeline: PipelineId)
    | SdpFailed(pipeline: PipelineId)
    | CloseRuntime(session: SessionId)

  predicate InRange(q: Port) { MEDIA_PORT_MIN <= q <= MEDIA_PORT_MAX }

  function TapsOf(taps: map<SessionId, seq<Port>>, s: SessionId): seq<Port> {
    if s in taps then taps[s] else []
  }

  /** The lowest port of the range, from `q` on, that is not reserved. */
  function LowestFree(inUse: set<Port>, q: Port): Option<Port>
    decreases MEDIA_PORT_MAX - q
  {
    if q > MEDIA_PORT_MAX then None else if q !in inUse then Some(q) else LowestFree(inUse, q + 1)
  }

  predicate Possible(p: State, e: Event) {
    match e
    case StartPipeline(_, _) => true
    case CloseRuntime(_) => true
    case TapOpened(f) => f in p.pipelines && p.pipelines[f].port.Some?
    case TapFailed(f) => f in p.pipelines && p.pipelines[f].port.Some?
    case SdpWritten(f) => f in p.pipelines && p.pipelines[f].port.None?
    case SdpFailed(f) => f in p.pipelines && p.pipelines[f].port.None?
  }

  function Close(p: State, s: SessionId): State {
    p.(owner := p.owner - (set q | q in TapsOf(p.taps, s)), taps := p.taps[s := []])
  }

  /** The loop head: reserve the next port and await its tap, or leave (done, or out of ports). */
  function NextTap(p: State, f: PipelineId, s: SessionId, remaining: nat): State {
    var free := LowestFree(p.owner.Keys, MEDIA_PORT_MIN);
    if remaining == 0 || free.None? then p.(pipelines := p.pipelines - {f})
    else p.(owner := p.owner[free.value := Opening(f)], pipelines := p.pipelines[f := Pipeline(s, free, remaining - 1)])
  }

  function Step(p: State, e: Event): State
    requires Possible(p, e)
  {
    match e
    case StartPipeline(s, n) => NextTap(Close(p, s).(nextPipeline := p.nextPipeline + 1), p.nextPipeline, s, n)
    case TapOpened(f) =>
      var Pipeline(s, port, remaining) := p.pipelines[f];
      p.(owner := p.owner[port.value := Tap(s)], taps := p.taps[s := TapsOf(p.taps, s) + [port.value]],
         pipelines := p.pipelines[f := Pipeline(s, None, remaining)])
    case TapFailed(f) => p.(owner := p.owner[p.pipelines[f].port.value := Lost], pipelines := p.pipelines - {f})
    case SdpWritten(f) => NextTap(p, f, p.pipelines[f].session, p.pipelines[f].remaining)
    case SdpFailed(f) => p.(pipelines := p.pipelines - {f})
    case CloseRuntime(s) => Close(p, s)
  }

  ghost predicate PossibleRun(p: State, es: seq<Event>)
    decreases |es|
  {
    es == [] || (Possible(p, es[0]) && PossibleRun(Step(p, es[0]), es[1..]))
  }

  ghost function Run(p: State, es: seq<Event>): State
    requires PossibleRun(p, es)
    decreases |es|
  {
    if es == [] then p else Run(Step(p, es[0]), es[1..])
  }

  // ----- Allocation -----

  /** Allocation picks the lowest free port and is refused exactly when the whole range is reserved. */
  lemma {:induction false} LowestFreeExact(inUse: set<Port>, q: Port)
    ensures match LowestFree(inUse, q)
            case Some(r) => q <= r <= MEDIA_PORT_MAX && r !in inUse && forall x | q <= x < r :: x in inUse
            case None => forall x | q <= x <= MEDIA_PORT_MAX :: x in inUse
    decreases MEDIA_PORT_MAX - q
  {
    if q <= MEDIA_PORT_MAX && q in inUse { LowestFreeExact(inUse, q + 1); }
  }

  // ----- Exclusive ownership -----

  ghost predicate TapsOwned(p: State) {
    && (forall s, i | s in p.taps && 0 <= i < |p.taps[s]| :: p.taps[s][i] in p.owner && p.owner[p.taps[s][i]] == Tap(s))
    && (forall s | s in p.taps :: Distinct(p.taps[s]))
    && (forall q | q in p.owner && p.owner[q].Tap? :: q in TapsOf(p.taps, p.owner[q].session))
  }

  ghost predicate OpeningsOwned(p: State) {
    && (forall f | f in p.pipelines :: f < p.nextPipeline)
    && (forall f | f in p.pipelines && p.pipelines[f].port.Some? ::
          p.pipelines[f].port.value in p.owner && p.owner[p.pipelines[f].port.value] == Opening(f))
    && (forall q | q in p.owner && p.owner[q].Opening? ::
          p.owner[q].pipeline in p.pipelines && p.pipelines[p.owner[q].pipeline].port == Some(q))
  }

  ghost predicate Sound(p: State) {
    TapsOwned(p) && OpeningsOwned(p) && forall q | q in p.owner :: InRange(q)
  }

  /** Closing a runtime frees that session's tap ports and no other port. */
  lemma CloseFreesOwn(p: State, s: SessionId)
    requires Sound(p)
    ensures forall q | q in p.owner :: q !in Close(p, s).owner <==> p.owner[q] == Tap(s)
    ensures forall q | q in Close(p, s).owner :: q in p.owner && Close(p, s).owner[q] == p.owner[q]
  {
    forall q | q in p.owner && p.owner[q] == Tap(s) ensures q in TapsOf(p.taps, s) { }
  }

  lemma CloseSound(p: State, s: SessionId)
    requires Sound(p)
    ensures Sound(Close(p, s))
  {
    CloseFreesOwn(p, s);
    var p' := Close(p, s);
    forall t, i | t in p'.taps && 0 <= i < |p'.taps[t]| ensures p'.taps[t][i] in p'.owner && p'.owner[p'.taps[t][i]] == Tap(t) {
      assert t != s && p.taps[t][i] in p.owner;
    }
  }

  /** The pipeline at its loop head holds no port. */
  lemma NextTapSound(p: State, f: PipelineId, s: SessionId, n: nat)
    requires Sound(p) && f < p.nextPipeline && (f in p.pipelines ==> p.pipelines[f].port.None?)
    ensures Sound(NextTap(p, f, s, n))
  {
    LowestFreeExact(p.owner.Keys, MEDIA_PORT_MIN);
    hide LowestFree;
  }

  lemma TapOpenedSound(p: State, f: PipelineId)
    requires Sound(p) && Possible(p, TapOpened(f))
    ensures Sound(Step(p, TapOpened(f)))
  {
    var p' := Step(p, TapOpened(f));
    var s, q := p.pipelines[f].session, p.pipelines[f].port.value;
    var before := TapsOf(p.taps, s);
    assert q !in before;
    assert TapsOf(p'.taps, s) == before + [q] && q in TapsOf(p'.taps, s);
    forall x | x in p'.owner && p'.owner[x].Tap? ensures x in TapsOf(p'.taps, p'.owner[x].session) {
      if x != q { assert x in TapsOf(p.taps, p.owner[x].session); }
    }
  }

  lemma StepSound(p: State, e: Event)
    requires Sound(p) && Possible(p, e)
    ensures Sound(Step(p, e))
  {
    match e
    case StartPipeline(s, n) =>
      CloseSound(p, s);
      var c := Close(p, s).(nextPipeline := p.nextPipeline + 1);
      NextTapSound(c, p.nextPipeline, s, n);
    case TapOpened(f) => TapOpenedSound(p, f);
    case SdpWritten(f) => NextTapSound(p, f, p.pipelines[f].session, p.pipelines[f].remaining);
    case CloseRuntime(s) => CloseSound(p, s);
    case _ =>
  }

  lemma {:induction false} AlwaysSound(p: State, es: seq<Event>)
    requires Sound(p) && PossibleRun(p, es)
    ensures Sound(Run(p, es))
    decreases |es|
  {
    if es != [] {
      StepSound(p, es[0]);
      hide Step, Sound;
      AlwaysSound(Step(p, es[0]), es[1..]);
    }
  }

  /** A port in use somewhere: position `i` of a session's tap list, or an `openTap` in progress. */
  datatype Use = OpenTap(s: SessionId, i: nat) | PendingTap(f: PipelineId)

  ghost predicate Uses(p: State, u: Use, q: Port) {
    match u
    case OpenTap(s, i) => s in p.taps && i < |p.taps[s]| && p.taps[s][i] == q
    case PendingTap(f) => f in p.pipelines && p.pipelines[f].port == Some(q)
  }

  /**
   In every run from an idle service, over all sessions: a port has at most one use, each port used is
   in the range and reserved, and a reserved port without a use was lost by a failed `openTap`.
   */
  lemma PortsExclusive(es: seq<Event>, q: Port)
    requires PossibleRun(IDLE, es)
    ensures var p := Run(IDLE, es);
            && (forall u, v | Uses(p, u, q) && Uses(p, v, q) :: u == v)
            && (forall u | Uses(p, u, q) :: 42000 <= q <= 42100 && q in p.owner)
            && (q in p.owner && !p.owner[q].Lost? ==> exists u :: Uses(p, u, q))
  {
    AlwaysSound(IDLE, es);
    var p := Run(IDLE, es);
    if q in p.owner && p.owner[q].Tap? {
      var s := p.owner[q].session;
      var i :| 0 <= i < |TapsOf(p.taps, s)| && TapsOf(p.taps, s)[i] == q;
      assert Uses(p, OpenTap(s, i), q);
    }
    if q in p.owner && p.owner[q].Opening? {
      assert Uses(p, PendingTap(p.owner[q].pipeline), q);
    }
  }

  // ----- Lost ports -----

  function LostPorts(p: State): set<Port> { set q | q in p.owner && p.owner[q].Lost? }

  function Failures(es: seq<Event>): nat {
    if es == [] then 0 else (if es[0].TapFailed? then 1 else 0) + Failures(es[1..])
  }

  lemma NextTapLost(p: State, f: PipelineId, s: SessionId, n: nat)
    ensures LostPorts(NextTap(p, f, s, n)) == LostPorts(p)
  {
    LowestFreeExact(p.owner.Keys, MEDIA_PORT_MIN);
    hide LowestFree;
    assert LostPorts(NextTap(p, f, s, n)) == LostPorts(p);
  }

  lemma CloseLost(p: State, s: SessionId)
    requires Sound(p)
    ensures LostPorts(Close(p, s)) == LostPorts(p)
  {
    CloseFreesOwn(p, s);
    hide Close;
    assert LostPorts(Close(p, s)) == LostPorts(p);
  }

  lemma StepLost(p: State, e: Event)
    requires Sound(p) && Possible(p, e)
    ensures LostPorts(Step(p, e)) ==
            LostPorts(p) + (if e.TapFailed? then {p.pipelines[e.pipeline].port.value} else {})
    ensures |LostPorts(Step(p, e))| == |LostPorts(p)| + (if e.TapFailed? then 1 else 0)
  {
    assert LostPorts(p) + {} == LostPorts(p);
    match e
    case StartPipeline(s, n) =>
      CloseLost(p, s);
      var c := Close(p, s).(nextPipeline := p.nextPipeline + 1);
      assert LostPorts(c) == LostPorts(p);
      NextTapLost(c, p.nextPipeline, s, n);
    case TapOpened(f) => assert LostPorts(Step(p, e)) == LostPorts(p);
    case TapFailed(f) => assert LostPorts(Step(p, e)) == LostPorts(p) + {p.pipelines[f].port.value};
    case SdpWritten(f) => NextTapLost(p, f, p.pipelines[f].session, p.pipelines[f].remaining);
    case SdpFailed(f) => assert LostPorts(Step(p, e)) == LostPorts(p);
    case CloseRuntime(s) => CloseLost(p, s);
  }

  /** Each failed `openTap` loses one port for good: no later event of any session gives it back. */
  lemma {:induction false} LostForGood(p: State, es: seq<Event>)
    requires Sound(p) && PossibleRun(p, es)
    ensures LostPorts(p) <= LostPorts(Run(p, es))
    ensures |LostPorts(Run(p, es))| == |LostPorts(p)| + Failures(es)
    decreases |es|
  {
    if es != [] {
      StepSound(p, es[0]);
      StepLost(p, es[0]);
      hide Step, Sound, LostPorts;
      LostForGood(Step(p, es[0]), es[1..]);
    }
  }

  // ----- Ports kept by ended sessions -----

  /** A pipeline of the session awaits an `openTap`. */
  predicate InOpenTap(p: State, s: SessionId) {
    exists f | f in p.pipelines :: p.pipelines[f].session == s && p.pipelines[f].port.Some?
  }

  /** The events that close the session's runtime; a rebuild begins with one. */
  predicate Closes(e: Event, s: SessionId) {
    (e.StartPipeline? || e.CloseRuntime?) && e.session == s
  }

  /** A pipeline of the session was in `openTap` at its last close or since; `busy` says so of the state before the run. */
  ghost predicate OpeningSinceClose(p: State, es: seq<Event>, s: SessionId, busy: bool)
    requires PossibleRun(p, es)
    decreases |es|
  {
    if es == [] then busy
    else
      var p' := Step(p, es[0]);
      OpeningSinceClose(p', es[1..], s, InOpenTap(p', s) || (busy && !Closes(es[0], s)))
  }

  /** The session has a tap, or is about to. */
  ghost predicate Occupied(p: State, s: SessionId) { TapsOf(p.taps, s) != [] || InOpenTap(p, s) }

  lemma NextTapOpening(p: State, f: PipelineId, t: SessionId, n: nat, s: SessionId)
    requires f in p.pipelines ==> p.pipelines[f].port.None? && p.pipelines[f].session == t
    ensures InOpenTap(p, s) ==> InOpenTap(NextTap(p, f, t, n), s)
    ensures InOpenTap(NextTap(p, f, t, n), s) ==> InOpenTap(p, s) || s == t
    ensures NextTap(p, f, t, n).taps == p.taps
  {
    var p' := NextTap(p, f, t, n);
    if InOpenTap(p, s) {
      var g :| g in p.pipelines && p.pipelines[g].session == s && p.pipelines[g].port.Some?;
      assert g in p'.pipelines && p'.pipelines[g] == p.pipelines[g];
    }
    if InOpenTap(p', s) && s != t {
      var g :| g in p'.pipelines && p'.pipelines[g].session == s && p'.pipelines[g].port.Some?;
      assert g in p.pipelines && p.pipelines[g] == p'.pipelines[g];
    }
  }

  lemma TapOpenedOpening(p: State, f: PipelineId, s: SessionId)
    requires Possible(p, TapOpened(f))
    ensures Occupied(Step(p, TapOpened(f)), s) <==> Occupied(p, s)
  {
    var p' := Step(p, TapOpened(f));
    if p.pipelines[f].session == s {
      assert InOpenTap(p, s);
    } else {
      if InOpenTap(p, s) {
        var g :| g in p.pipelines && p.pipelines[g].session == s && p.pipelines[g].port.Some?;
        assert g in p'.pipelines && p'.pipelines[g] == p.pipelines[g];
      }
      if InOpenTap(p', s) {
        var g :| g in p'.pipelines && p'.pipelines[g].session == s && p'.pipelines[g].port.Some?;
        assert g in p.pipelines && p.pipelines[g] == p'.pipelines[g];
      }
    }
  }

  /** A pipeline that ends leaves the others where they are. */
  lemma EndedOpening(p: State, p': State, f: PipelineId, s: SessionId)
    requires p'.pipelines == p.pipelines - {f}
    ensures InOpenTap(p', s) ==> InOpenTap(p, s)
    ensures f in p.pipelines && p.pipelines[f].port.None? && InOpenTap(p, s) ==> InOpenTap(p', s)
  {
    if InOpenTap(p, s) {
      var g :| g in p.pipelines && p.pipelines[g].session == s && p.pipelines[g].port.Some?;
      assert g != f ==> g in p'.pipelines && p'.pipelines[g] == p.pipelines[g];
    }
    if InOpenTap(p', s) {
      var g :| g in p'.pipelines && p'.pipelines[g].session == s && p'.pipelines[g].port.Some?;
      assert g in p.pipelines && p.pipelines[g] == p'.pipelines[g];
    }
  }

  /** What a session occupies changes only through its own closes, its own taps and failures. */
  lemma StepOccupied(p: State, e: Event, s: SessionId, busy: bool)
    requires Sound(p) && Possible(p, e) && (Occupied(p, s) ==> busy)
    ensures var p' := Step(p, e);
            var busy' := InOpenTap(p', s) || (busy && !Closes(e, s));
            && (Occupied(p', s) ==> busy')
            && (busy' ==> Occupied(p', s) || e.TapFailed? || (busy && !Occupied(p, s)))
  {
    match e
    case StartPipeline(t, n) =>
      var c := Close(p, t).(nextPipeline := p.nextPipeline + 1);
      assert InOpenTap(c, s) <==> InOpenTap(p, s) by { assert c.pipelines == p.pipelines; }
      assert p.nextPipeline !in p.pipelines;
      hide InOpenTap, NextTap;
      NextTapOpening(c, p.nextPipeline, t, n, s);
    case TapOpened(f) => TapOpenedOpening(p, f, s);
    case TapFailed(f) => EndedOpening(p, Step(p, e), f, s);
    case SdpWritten(f) =>
      hide InOpenTap, NextTap;
      NextTapOpening(p, f, p.pipelines[f].session, p.pipelines[f].remaining, s);
    case SdpFailed(f) => EndedOpening(p, Step(p, e), f, s);
    case CloseRuntime(t) =>
      assert InOpenTap(Step(p, e), s) <==> InOpenTap(p, s) by { assert Step(p, e).pipelines == p.pipelines; }
  }

  /** Over a run, a session that was opening a tap at its last close or since still occupies a port, or an `openTap` failed. */
  lemma {:induction false} OccupiedExactly(p: State, es: seq<Event>, s: SessionId, busy: bool, failed: bool)
    requires Sound(p) && PossibleRun(p, es) && (Occupied(p, s) ==> busy) && (busy ==> Occupied(p, s) || failed)
    ensures var end := Run(p, es);
            var busy' := OpeningSinceClose(p, es, s, busy);
            && (Occupied(end, s) ==> busy')
            && (busy' ==> Occupied(end, s) || failed || Failures(es) > 0)
    decreases |es|
  {
    if es != [] {
      var p' := Step(p, es[0]);
      StepSound(p, es[0]);
      StepOccupied(p, es[0], s, busy);
      hide Step, Sound, Occupied, InOpenTap;
      OccupiedExactly(p', es[1..], s, InOpenTap(p', s) || (busy && !Closes(es[0], s)), failed || es[0].TapFailed?);
    }
  }

  lemma TapsReserved(p: State)
    requires TapsOwned(p)
    ensures forall s :: TapsOf(p.taps, s) == [] || TapsOf(p.taps, s)[0] in p.owner
  {
  }

  /** With no pipeline left, a reserved port is lost or in some session's tap list. */
  lemma NoPipelineLeft(p: State)
    requires Sound(p) && p.pipelines == map[]
    ensures p.owner == map[] <==> LostPorts(p) == {} && forall s :: !Occupied(p, s)
  {
    if LostPorts(p) == {} && forall s :: !Occupied(p, s) {
      assert forall q | q in p.owner :: q in LostPorts(p) || Occupied(p, p.owner[q].session);
      assert p.owner.Keys == {};
    }
    TapsReserved(p);
    if p.owner == map[] {
      assert LostPorts(p) == {};
      assert forall s :: TapsOf(p.taps, s) == [];
    }
  }

  /** Every session was last closed with no pipeline in `openTap`, and none has been since. */
  ghost predicate ClosedAtRest(es: seq<Event>)
    requires PossibleRun(IDLE, es)
  {
    forall s :: !OpeningSinceClose(IDLE, es, s, false)
  }

  lemma ClosedAtRestExactly(es: seq<Event>)
    requires PossibleRun(IDLE, es) && Failures(es) == 0
    ensures ClosedAtRest(es) <==> forall s :: !Occupied(Run(IDLE, es), s)
  {
    IdleSound();
    if ClosedAtRest(es) {
      forall s ensures !Occupied(Run(IDLE, es), s) {
        OccupiedExactly(IDLE, es, s, false, false);
        assert !OpeningSinceClose(IDLE, es, s, false);
      }
    } else {
      var s :| OpeningSinceClose(IDLE, es, s, false);
      OccupiedExactly(IDLE, es, s, false, false);
      assert Occupied(Run(IDLE, es), s);
    }
  }

  /**
   With no pipeline left, all ports are back if and only if no `openTap` failed and every session was
   last closed at rest. Whether taps are still open is not asked.
   */
  lemma QuiescentExactly(es: seq<Event>)
    requires PossibleRun(IDLE, es) && Run(IDLE, es).pipelines == map[]
    ensures Run(IDLE, es).owner == map[] <==> Failures(es) == 0 && ClosedAtRest(es)
  {
    var p := Run(IDLE, es);
    IdleSound();
    AlwaysSound(IDLE, es);
    LostForGood(IDLE, es);
    NoPipelineLeft(p);
    assert LostPorts(IDLE) == {};
    assert LostPorts(p) == {} <==> Failures(es) == 0;
    hide Sound, Occupied, LostPorts, ClosedAtRest;
    if Failures(es) == 0 { ClosedAtRestExactly(es); }
  }

  lemma IdleSound()
    ensures Sound(IDLE)
  {
  }

  lemma RunCons(p: State, e: Event, es: seq<Event>)
    requires Possible(p, e) && PossibleRun(Step(p, e), es)
    ensures PossibleRun(p, [e] + es) && Run(p, [e] + es) == Run(Step(p, e), es)
  {
    assert ([e] + es)[1..] == es;
  }

  /** A session closed while its `openTap` is under way keeps the port, although nothing failed and nothing runs any more. */
  lemma ClosedWhileOpening(s: SessionId)
    ensures var es := [StartPipeline(s, 1)] + ([CloseRuntime(s)] + ([TapOpened(0)] + ([SdpWritten(0)] + [])));
            && PossibleRun(IDLE, es) && (forall e | e in es :: !e.TapFailed?)
            && Run(IDLE, es).pipelines == map[] && Run(IDLE, es).owner == map[MEDIA_PORT_MIN := Tap(s)]
  {
    var q := MEDIA_PORT_MIN;
    var p1 := State(map[q := Opening(0)], map[s := []], map[0 := Pipeline(s, Some(q), 0)], 1);
    assert LowestFree({}, q) == Some(q);
    assert Close(IDLE, s).owner == map[];
    assert Step(IDLE, StartPipeline(s, 1)) == p1;
    assert Step(p1, CloseRuntime(s)) == p1;
    var p2 := State(map[q := Tap(s)], map[s := [q]], map[0 := Pipeline(s, None, 0)], 1);
    assert Step(p1, TapOpened(0)) == p2 by { assert [] + [q] == [q]; }
    var p3 := p2.(pipelines := map[]);
    assert Step(p2, SdpWritten(0)) == p3;
    hide Step, Close;
    RunCons(p2, SdpWritten(0), []);
    RunCons(p1, TapOpened(0), [SdpWritten(0)] + []);
    RunCons(p1, CloseRuntime(s), [TapOpened(0)] + ([SdpWritten(0)] + []));
    RunCons(IDLE, StartPipeline(s, 1), [CloseRuntime(s)] + ([TapOpened(0)] + ([SdpWritten(0)] + [])));
    assert Run(p3, []) == p3;
  }

  /** Some port of the range is not lost. */
  ghost predicate Spare(p: State) { exists q :: InRange(q) && q !in LostPorts(p) }

  /** The pipeline is in `openTap`, or between two taps while not every port is lost. */
  ghost predicate ToOpen(p: State, f: PipelineId)
    requires f in p.pipelines
  {
    p.pipelines[f].port.Some? || (p.pipelines[f].remaining > 0 && Spare(p))
  }

  ghost predicate TapsToCome(p: State, s: SessionId) {
    exists f | f in p.pipelines :: p.pipelines[f].session == s && ToOpen(p, f)
  }

  /** Nothing closes the session again: it has ended. */
  ghost predicate Ended(es: seq<Event>, s: SessionId) { forall e | e in es :: !Closes(e, s) }

  lemma SpareKept(p: State, e: Event)
    requires Sound(p) && Possible(p, e) && Spare(Step(p, e))
    ensures Spare(p)
  {
    StepLost(p, e);
    hide Step, Sound, LostPorts;
  }

  /** Without a spare port the loop finds none. */
  lemma NothingToAllocate(p: State)
    requires !Spare(p)
    ensures LowestFree(p.owner.Keys, MEDIA_PORT_MIN) == None
  {
    LowestFreeExact(p.owner.Keys, MEDIA_PORT_MIN);
    hide LowestFree;
    var free := LowestFree(p.owner.Keys, MEDIA_PORT_MIN);
    assert free.Some? ==> InRange(free.value) && free.value !in LostPorts(p);
  }

  /** An ended session without taps to come gets none from any event. */
  lemma EndedStep(p: State, e: Event, s: SessionId)
    requires Sound(p) && Possible(p, e) && !Closes(e, s) && !TapsToCome(p, s) && TapsOf(p.taps, s) == []
    ensures !TapsToCome(Step(p, e), s) && TapsOf(Step(p, e).taps, s) == []
  {
    var p' := Step(p, e);
    if e.SdpWritten? && !Spare(p) { NothingToAllocate(p); }
    forall f | f in p'.pipelines && p'.pipelines[f].session == s ensures !ToOpen(p', f) {
      if Spare(p') { SpareKept(p, e); }
      hide Sound, Spare, LowestFree;
      assert f in p.pipelines && p.pipelines[f].session == s && !ToOpen(p, f);
    }
    assert forall f | f in p.pipelines && p.pipelines[f].port.Some? :: ToOpen(p, f);
  }

  lemma {:induction false} EndedRun(p: State, es: seq<Event>, s: SessionId)
    requires Sound(p) && PossibleRun(p, es) && Ended(es, s) && !TapsToCome(p, s) && TapsOf(p.taps, s) == []
    ensures TapsOf(Run(p, es).taps, s) == []
    decreases |es|
  {
    if es != [] {
      assert es[0] in es;
      EndedStep(p, es[0], s);
      StepSound(p, es[0]);
      hide Step, Sound, TapsToCome, Possible;
      EndedRun(Step(p, es[0]), es[1..], s);
    }
  }

  /** A run in which the ended session ends up with a tap. */
  ghost predicate Leaks(p: State, es: seq<Event>, s: SessionId) {
    PossibleRun(p, es) && Ended(es, s) && TapsOf(Run(p, es).taps, s) != []
  }

  lemma LeaksLater(p: State, e: Event, es: seq<Event>, s: SessionId)
    requires Possible(p, e) && !Closes(e, s) && Leaks(Step(p, e), es, s)
    ensures Leaks(p, [e] + es, s)
  {
    RunCons(p, e, es);
  }

  lemma LeakByOpening(p: State, f: PipelineId)
    requires f in p.pipelines && p.pipelines[f].port.Some?
    ensures Leaks(p, [TapOpened(f)] + [], p.pipelines[f].session)
  {
    var s := p.pipelines[f].session;
    var t := Step(p, TapOpened(f));
    assert TapsOf(t.taps, s) != [];
    assert Run(t, []) == t;
    LeaksLater(p, TapOpened(f), [], s);
  }

  lemma LeakByNextTap(p: State, f: PipelineId)
    requires f in p.pipelines && p.pipelines[f].port.None? && p.pipelines[f].remaining > 0
    requires LowestFree(p.owner.Keys, MEDIA_PORT_MIN).Some?
    ensures Leaks(p, [SdpWritten(f)] + ([TapOpened(f)] + []), p.pipelines[f].session)
  {
    LeakByOpening(Step(p, SdpWritten(f)), f);
    hide Leaks;
    LeaksLater(p, SdpWritten(f), [TapOpened(f)] + [], p.pipelines[f].session);
  }

  /** Closing another session makes room for the pipeline's next tap. */
  lemma LeakAfterClose(p: State, f: PipelineId, q: Port)
    requires Sound(p) && f in p.pipelines && p.pipelines[f].port.None? && p.pipelines[f].remaining > 0
    requires q in p.owner && p.owner[q].Tap? && p.owner[q].session != p.pipelines[f].session
    ensures exists es :: Leaks(p, es, p.pipelines[f].session)
  {
    var t, s := p.owner[q].session, p.pipelines[f].session;
    var c := Step(p, CloseRuntime(t));
    CloseFreesOwn(p, t);
    assert q !in c.owner && InRange(q) && c.pipelines == p.pipelines;
    LowestFreeExact(c.owner.Keys, MEDIA_PORT_MIN);
    hide LowestFree, Leaks, Close;
    LeakByNextTap(c, f);
    LeaksLater(p, CloseRuntime(t), [SdpWritten(f)] + ([TapOpened(f)] + []), s);
  }

  /** With a spare port, a pipeline between two taps can come to its next one. */
  lemma LeakWithSpare(p: State, f: PipelineId)
    requires Sound(p) && f in p.pipelines && p.pipelines[f].port.None? && p.pipelines[f].remaining > 0 && Spare(p)
    requires TapsOf(p.taps, p.pipelines[f].session) == []
    ensures exists es :: Leaks(p, es, p.pipelines[f].session)
  {
    var s := p.pipelines[f].session;
    var q :| InRange(q) && q !in LostPorts(p);
    LowestFreeExact(p.owner.Keys, MEDIA_PORT_MIN);
    hide LowestFree, Leaks;
    if LowestFree(p.owner.Keys, MEDIA_PORT_MIN).Some? {
      LeakByNextTap(p, f);
    } else if p.owner[q].Tap? {
      assert q in TapsOf(p.taps, p.owner[q].session);
      LeakAfterClose(p, f, q);
    } else {
      var g := p.owner[q].pipeline;
      if p.pipelines[g].session == s {
        LeakByOpening(p, g);
      } else {
        var t := Step(p, TapOpened(g));
        StepSound(p, TapOpened(g));
        assert t.owner[q] == Tap(p.pipelines[g].session) && t.pipelines[f] == p.pipelines[f];
        LeakAfterClose(t, f, q);
        var es :| Leaks(t, es, s);
        LeaksLater(p, TapOpened(g), es, s);
      }
    }
  }

  /**
   Closing a session for the last time leaves it without a tap, whatever still happens, if and only if
   at the close none of its pipelines was in `openTap` or had a tap to come.
   */
  lemma EndedSessionExactly(p: State, s: SessionId)
    requires Sound(p)
    ensures (forall es | PossibleRun(Step(p, CloseRuntime(s)), es) && Ended(es, s) ::
               TapsOf(Run(Step(p, CloseRuntime(s)), es).taps, s) == [])
            <==> !TapsToCome(p, s)
  {
    var c := Step(p, CloseRuntime(s));
    StepSound(p, CloseRuntime(s));
    StepLost(p, CloseRuntime(s));
    assert TapsToCome(c, s) <==> TapsToCome(p, s) by {
      assert c.pipelines == p.pipelines && LostPorts(c) == LostPorts(p);
      hide LostPorts, Close;
    }
    assert TapsOf(c.taps, s) == [];
    hide Step, Sound, Ended;
    if TapsToCome(c, s) {
      var f :| f in c.pipelines && c.pipelines[f].session == s && ToOpen(c, f);
      if c.pipelines[f].port.Some? { LeakByOpening(c, f); } else { LeakWithSpare(c, f); }
      var es :| Leaks(c, es, s);
    } else {
      hide TapsToCome;
      forall es | PossibleRun(c, es) && Ended(es, s) ensures TapsOf(Run(c, es).taps, s) == [] { EndedRun(c, es, s); }
    }
  }

  // ----- Every pipeline opens the taps it was started with -----

  /** The activations begun by these events, in order; the k-th is pipeline k of an idle service. */
  function Begun(es: seq<Event>): (starts: seq<Event>)
    ensures forall k | 0 <= k < |starts| :: starts[k].StartPipeline?
  {
    if es == [] then [] else (if es[0].StartPipeline? then [es[0]] else []) + Begun(es[1..])
  }

  /** How many taps of the pipeline have been opened. */
  function Opened(es: seq<Event>, f: PipelineId): nat {
    if es == [] then 0 else (if es[0] == TapOpened(f) then 1 else 0) + Opened(es[1..], f)
  }

  /** Taps the pipeline is opening and has still to open. */
  function Due(p: Pipeline): nat { (if p.port.Some? then 1 else 0) + p.remaining }

  /** A loop head: a pipeline goes on exactly when it has a tap to open and some port of the range is free. */
  lemma NextTapExactly(p: State, f: PipelineId, s: SessionId, n: nat)
    ensures var p' := NextTap(p, f, s, n);
            && (f in p'.pipelines <==> n > 0 && exists q :: InRange(q) && q !in p.owner)
            && (f in p'.pipelines ==>
                  var t := p'.pipelines[f];
                  t.session == s && Due(t) == n && t.port.Some? && InRange(t.port.value) && t.port.value !in p.owner
                  && (forall q | InRange(q) && q < t.port.value :: q in p.owner)
                  && p'.owner == p.owner[t.port.value := Opening(f)])
            && p'.pipelines - {f} == p.pipelines - {f} && (f !in p'.pipelines ==> p'.owner == p.owner)
            && p'.taps == p.taps && p'.nextPipeline == p.nextPipeline
  {
    LowestFreeExact(p.owner.Keys, MEDIA_PORT_MIN);
    hide LowestFree;
    if f in NextTap(p, f, s, n).pipelines { assert InRange(LowestFree(p.owner.Keys, MEDIA_PORT_MIN).value); }
  }

  lemma BegunFirst(e: Event, es: seq<Event>)
    ensures Begun([e] + es) == if e.StartPipeline? then [e] + Begun(es) else Begun(es)
  {
    assert ([e] + es)[1..] == es;
  }

  /** One event, seen from one pipeline: its count of taps to open goes down by the taps opened. */
  lemma StepDue(p: State, e: Event, f: PipelineId)
    requires Sound(p) && Possible(p, e)
    ensures var p' := Step(p, e);
            && p'.nextPipeline == p.nextPipeline + (if e.StartPipeline? then 1 else 0)
            && (f in p'.pipelines && f in p.pipelines ==>
                  p'.pipelines[f].session == p.pipelines[f].session
                  && Due(p.pipelines[f]) == Due(p'.pipelines[f]) + (if e == TapOpened(f) then 1 else 0))
            && (f in p'.pipelines && f !in p.pipelines ==>
                  e.StartPipeline? && f == p.nextPipeline && p'.pipelines[f].session == e.session && Due(p'.pipelines[f]) == e.tapCount)
  {
    hide LowestFree, Sound;
    assert forall g | g in p.pipelines :: g < p.nextPipeline by { SoundNumbers(p); }
    match e
    case StartPipeline(s, n) =>
      NextTapExactly(Close(p, s).(nextPipeline := p.nextPipeline + 1), p.nextPipeline, s, n);
      hide NextTap;
      KeptApart(Step(p, e).pipelines, p.pipelines, p.nextPipeline, f);
    case SdpWritten(g) =>
      NextTapExactly(p, g, p.pipelines[g].session, p.pipelines[g].remaining);
      hide NextTap;
      KeptApart(Step(p, e).pipelines, p.pipelines, g, f);
    case _ =>
  }

  lemma SoundNumbers(p: State)
    requires Sound(p)
    ensures forall f | f in p.pipelines :: f < p.nextPipeline
  {
  }

  lemma KeptApart(a: map<PipelineId, Pipeline>, b: map<PipelineId, Pipeline>, f: PipelineId, g: PipelineId)
    requires a - {f} == b - {f}
    ensures f != g ==> (g in a <==> g in b) && (g in a ==> a[g] == b[g])
  {
    assert f != g ==> (g in a <==> g in a - {f}) && (g in b <==> g in b - {f});
  }

  /** The pipeline is now `t`: what it has opened in these events and what is due make up what was due before them. */
  ghost predicate Accounted(p: State, es: seq<Event>, f: PipelineId, t: Pipeline) {
    if f in p.pipelines then t.session == p.pipelines[f].session && Due(p.pipelines[f]) == Opened(es, f) + Due(t)
    else
      f >= p.nextPipeline && f - p.nextPipeline < |Begun(es)|
      && Begun(es)[f - p.nextPipeline] == StartPipeline(t.session, Opened(es, f) + Due(t))
  }

  lemma OpenedFirst(e: Event, es: seq<Event>, f: PipelineId)
    ensures Opened([e] + es, f) == (if e == TapOpened(f) then 1 else 0) + Opened(es, f)
  {
    assert ([e] + es)[1..] == es;
  }

  lemma AccountedFirst(p: State, e: Event, es: seq<Event>, f: PipelineId, t: Pipeline)
    requires Sound(p) && Possible(p, e) && Accounted(Step(p, e), es, f, t)
    ensures Accounted(p, [e] + es, f, t)
  {
    SoundNumbers(p);
    StepDue(p, e, f);
    OpenedFirst(e, es, f);
    hide Step, Sound, Possible, Begun, Opened, Due;
    if f !in p.pipelines { LaterFirst(p, e, es, f, t); }
  }

  /** A pipeline that is not alive yet: it begins with this event or with a later one. */
  lemma LaterFirst(p: State, e: Event, es: seq<Event>, f: PipelineId, t: Pipeline)
    requires Sound(p) && Possible(p, e) && Accounted(Step(p, e), es, f, t) && f !in p.pipelines
    ensures Accounted(p, [e] + es, f, t)
  {
    hide Step, Sound, Begun, Opened, Due;
    var p' := Step(p, e);
    StepDue(p, e, f);
    OpenedFirst(e, es, f);
    BegunFirst(e, es);
    assert Opened([e] + es, f) == Opened(es, f);
    hide Possible;
    if e.StartPipeline? {
      BegunAt(e, Begun(es), f - p.nextPipeline);
    }
  }

  lemma BegunAt(e: Event, later: seq<Event>, k: int)
    ensures 0 <= k <= |later| ==> ([e] + later)[k] == if k == 0 then e else later[k - 1]
  {
  }

  lemma {:induction false} AlwaysAccounted(p: State, es: seq<Event>, f: PipelineId)
    requires Sound(p) && PossibleRun(p, es) && f in Run(p, es).pipelines
    ensures Accounted(p, es, f, Run(p, es).pipelines[f])
    decreases |es|
  {
    if es != [] {
      assert es == [es[0]] + es[1..];
      StepSound(p, es[0]);
      hide Step, Sound, Accounted;
      AlwaysAccounted(Step(p, es[0]), es[1..], f);
      AccountedFirst(p, es[0], es[1..], f, Run(p, es).pipelines[f]);
    }
  }

  /**
   Over every run of the service: while a pipeline is alive, the taps it has opened, the one it is opening
   and those it has still to open make up the taps it was started with.
   */
  lemma TapsAccounted(es: seq<Event>, f: PipelineId)
    requires PossibleRun(IDLE, es) && f in Run(IDLE, es).pipelines
    ensures var t := Run(IDLE, es).pipelines[f];
            f < |Begun(es)| && Begun(es)[f].session == t.session
            && Begun(es)[f].tapCount == Opened(es, f) + (if t.port.Some? then 1 else 0) + t.remaining
  {
    IdleSound();
    AlwaysAccounted(IDLE, es, f);
  }

  /**
   At a loop head the pipeline goes on to reserve the lowest free port unless it has opened every tap it was
   started with or every port of the range is reserved; then, and only then, it ends there.
   */
  lemma LoopHeadExactly(es: seq<Event>, f: PipelineId)
    requires PossibleRun(IDLE, es) && Possible(Run(IDLE, es), SdpWritten(f))
    ensures f < |Begun(es)|
    ensures var p := Run(IDLE, es); var p' := Step(p, SdpWritten(f));
            && (f !in p'.pipelines <==> Opened(es, f) == Begun(es)[f].tapCount || forall q | 42000 <= q <= 42100 :: q in p.owner)
            && (f in p'.pipelines ==>
                  var port := p'.pipelines[f].port;
                  port.Some? && InRange(port.value) && port.value !in p.owner && forall q | InRange(q) && q < port.value :: q in p.owner)
  {
    var p := Run(IDLE, es);
    TapsAccounted(es, f);
    NextTapExactly(p, f, p.pipelines[f].session, p.pipelines[f].remaining);
    hide NextTap, Run, PossibleRun, Begun, Opened;
  }

  /**
   A start closes the session's runtime and goes on to its first tap unless it is started with none or every
   port of the range is reserved for others.
   */
  lemma StartExactly(p: State, s: SessionId, n: nat)
    requires Sound(p)
    ensures var p' := Step(p, StartPipeline(s, n)); var f := p.nextPipeline;
            && TapsOf(p'.taps, s) == [] && p'.nextPipeline == f + 1
            && (f !in p'.pipelines <==> n == 0 || forall q | 42000 <= q <= 42100 :: q in p.owner && p.owner[q] != Tap(s))
            && (f in p'.pipelines ==>
                  p'.pipelines[f].session == s && p'.pipelines[f].remaining == n - 1
                  && p'.pipelines[f].port.Some? && InRange(p'.pipelines[f].port.value))
  {
    CloseFreesOwn(p, s);
    var c := Close(p, s).(nextPipeline := p.nextPipeline + 1);
    NextTapExactly(c, p.nextPipeline, s, n);
    hide NextTap, Sound;
    assert c.taps == p.taps[s := []];
    hide Close;
  }

  // ----- The service -----

  class EgressService {
    var portsInUse: set<Port>
    var taps: map<SessionId, seq<Port>>
    // Suspended activations of startPipeline.
    var pipelines: map<PipelineId, Pipeline>
    var nextPipeline: PipelineId
    ghost var owner: map<Port, Owner>

    ghost function Abs(): State
      reads this
    {
      State(owner, taps, pipelines, nextPipeline)
    }

    ghost predicate Valid()
      reads this
    {
      Sound(Abs()) && portsInUse == owner.Keys
    }

    constructor ()
      ensures Valid() && Abs() == IDLE
    {
      portsInUse, taps, pipelines, nextPipeline, owner := {}, map[], map[], 0, map[];
    }

    /** Reserves the lowest free port of the range. */
    method AllocatePort(ghost claimant: PipelineId) returns (free: Option<Port>)
      requires portsInUse == owner.Keys
      modifies `portsInUse, `owner
      ensures free == LowestFree(old(portsInUse), MEDIA_PORT_MIN)
      ensures free.Some? ==> portsInUse == old(portsInUse) + {free.value} && owner == old(owner)[free.value := Opening(claimant)]
      ensures free.None? ==> portsInUse == old(portsInUse) && owner == old(owner)
    {
      var port := MEDIA_PORT_MIN;
      while port <= MEDIA_PORT_MAX
        invariant MEDIA_PORT_MIN <= port <= MEDIA_PORT_MAX + 1
        invariant portsInUse == old(portsInUse) && owner == old(owner)
        invariant LowestFree(portsInUse, MEDIA_PORT_MIN) == LowestFree(portsInUse, port)
      {
        if port !in portsInUse {
          portsInUse := portsInUse + {port};
          owner := owner[port := Opening(claimant)];
          return Some(port);
        }
        port := port + 1;
      }
      free := None;
    }

    /** Closes every tap handle of the session and releases its port. */
    method CloseRuntime(s: SessionId)
      requires Valid()
      modifies this
      ensures Valid() && Abs() == Close(old(Abs()), s)
    {
      CloseSound(Abs(), s);
      var closing := if s in taps then taps[s] else [];
      for i := 0 to |closing|
        invariant portsInUse == old(portsInUse) - (set q | q in closing[..i])
        invariant taps == old(taps) && pipelines == old(pipelines) && nextPipeline == old(nextPipeline) && owner == old(owner)
      {
        portsInUse := portsInUse - {closing[i]};
        assert closing[..i + 1] == closing[..i] + [closing[i]];
      }
      assert closing[..|closing|] == closing == TapsOf(taps, s);
      owner := owner - (set q | q in closing);
      taps := taps[s := []];
    }

    /** One turn of the tap loop, up to the await of openTap. */
    method ReserveNextTap(f: PipelineId, s: SessionId, remaining: nat) returns (port: Option<Port>)
      requires Valid() && f < nextPipeline && (f in pipelines ==> pipelines[f].port.None?)
      modifies this
      ensures Valid() && Abs() == NextTap(old(Abs()), f, s, remaining)
      ensures port == if remaining == 0 then None else LowestFree(old(portsInUse), MEDIA_PORT_MIN)
    {
      NextTapSound(Abs(), f, s, remaining);
      hide LowestFree, Sound;
      port := None;
      if remaining > 0 {
        port := AllocatePort(f);
      }
      if port.None? {
        pipelines := pipelines - {f};
      } else {
        pipelines := pipelines[f := Pipeline(s, port, remaining - 1)];
      }
    }

    method StartPipeline(s: SessionId, tapCount: nat) returns (port: Option<Port>)
      requires Valid()
      modifies this
      ensures Valid() && Abs() == Step(old(Abs()), Event.StartPipeline(s, tapCount))
    {
      CloseRuntime(s);
      var f := nextPipeline;
      nextPipeline := nextPipeline + 1;
      port := ReserveNextTap(f, s, tapCount);
    }

    /** openTap resolved: the tap joins the list its session has now. */
    method TapOpened(f: PipelineId)
      requires Valid() && Possible(Abs(), Event.TapOpened(f))
      modifies this
      ensures Valid() && Abs() == Step(old(Abs()), Event.TapOpened(f))
      ensures portsInUse == old(portsInUse)
    {
      StepSound(Abs(), Event.TapOpened(f));
      var pipeline := pipelines[f];
      assert pipeline.port.value in owner;
      hide Sound;
      taps := taps[pipeline.session := (if pipeline.session in taps then taps[pipeline.session] else []) + [pipeline.port.value]];
      owner := owner[pipeline.port.value := Tap(pipeline.session)];
      pipelines := pipelines[f := pipeline.(port := None)];
    }

    /** openTap rejected: nothing releases the port. */
    method TapFailed(f: PipelineId)
      requires Valid() && Possible(Abs(), Event.TapFailed(f))
      modifies this
      ensures Valid() && Abs() == Step(old(Abs()), Event.TapFailed(f))
      ensures portsInUse == old(portsInUse)
    {
      StepSound(Abs(), Event.TapFailed(f));
      assert pipelines[f].port.value in owner;
      hide Sound;
      owner := owner[pipelines[f].port.value := Lost];
      pipelines := pipelines - {f};
    }

    method SdpWritten(f: PipelineId) returns (port: Option<Port>)
      requires Valid() && Possible(Abs(), Event.SdpWritten(f))
      modifies this
      ensures Valid() && Abs() == Step(old(Abs()), Event.SdpWritten(f))
    {
      port := ReserveNextTap(f, pipelines[f].session, pipelines[f].remaining);
    }

    method SdpFailed(f: PipelineId)
      requires Valid() && Possible(Abs(), Event.SdpFailed(f))
      modifies this
      ensures Valid() && Abs() == Step(old(Abs()), Event.SdpFailed(f))
    {
      StepSound(Abs(), Event.SdpFailed(f));
      pipelines := pipelines - {f};
    }
  }
}
