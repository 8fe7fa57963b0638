/**
 Capturing one local device: overlapping starts, device switches and stops, late resolutions of
 getUserMedia, one retry without the remembered device, and a timed retry while the device is in use.
 */
module MediaCaptureModel {
  import opened Common

  type Device = nat
  type RequestId = nat
  type StreamId = nat

  datatype CaptureState =
    | Stopped | Starting | Active | NoDevice | DeviceNotFound | DeviceInUse | DeviceError | SystemDenied | CaptureCanceled

  /** What getUserMedia rejects with. */
  datatype Failure = NotAllowed(bySystem: bool) | NotFound | NotReadable | Overconstrained | Aborted | Unknown

  predicate DeviceMissing(f: Failure) { f.NotFound? || f.Overconstrained? }

  /** The default error classifier. */
  function Classify(f: Failure): CaptureState {
    match f
    case NotAllowed(bySystem) => if bySystem then SystemDenied else DeviceNotFound
    case NotFound => DeviceNotFound
    case NotReadable => DeviceInUse
    case Overconstrained => DeviceError
    case Aborted => CaptureCanceled
    case Unknown => DeviceError
  }

  /** `acquired[i]` tells whether stream `i` has been stopped; `installed` are the requests that put a stream in place. */
  datatype State = State(
    state: CaptureState, stream: Option<StreamId>, hasTrack: bool, device: Option<Device>, current: RequestId,
    retryTimer: bool, requests: map<RequestId, Option<Device>>, acquired: seq<bool>, installed: set<RequestId>)

  const INITIAL := State(Stopped, None, false, None, 0, false, map[], [], {})

  datatype Event =
    | Start(device: Option<Device>)
    | SwitchDevice(to: Device)
    | Stop
    | Resolved(request: RequestId, trackDevice: Option<Option<Device>>)
    | Rejected(request: RequestId, failure: Failure)
    | TimerFires
    | TrackEnded(request: RequestId)

  predicate Possible(s: State, e: Event) {
    match e
    case Resolved(r, _) => r in s.requests
    case Rejected(r, _) => r in s.requests
    case TimerFires => s.retryTimer
    case TrackEnded(r) => r in s.installed
    case _ => true
  }

  function Starts(s: State, device: Option<Device>): State {
    s.(current := s.current + 1, retryTimer := false, state := Starting, requests := s.requests[s.current + 1 := device])
  }

  /** Stops the stream in place, if any. */
  function StopCurrent(s: State): State {
    s.(acquired := if s.stream.Some? && s.stream.value < |s.acquired| then s.acquired[s.stream.value := true] else s.acquired,
       stream := None, hasTrack := false)
  }

  /** A stream arrives for request `r`: stopped when it is late or has no track, else it replaces the one in place. */
  function Arrives(s: State, r: RequestId, trackDevice: Option<Option<Device>>): State
    requires r in s.requests
  {
    var asked := s.requests[r];
    var t := s.(requests := s.requests - {r});
    if r != s.current then t.(acquired := t.acquired + [true])
    else if trackDevice.None? then t.(acquired := t.acquired + [true], state := NoDevice)
    else
      var u := StopCurrent(t);
      u.(acquired := u.acquired + [false], stream := Some(|u.acquired|), hasTrack := true, state := Active,
         device := if trackDevice.value.Some? then trackDevice.value else asked, installed := u.installed + {r})
  }

  /** A vanished remembered device is retried without one, before anything else is looked at. */
  function Fails(s: State, r: RequestId, f: Failure): State
    requires r in s.requests
  {
    var t := s.(requests := s.requests - {r});
    if s.requests[r].Some? && DeviceMissing(f) then Starts(t, None)
    else if r != s.current then t
    else t.(state := Classify(f), retryTimer := t.retryTimer || Classify(f) == DeviceInUse)
  }

  function Step(s: State, e: Event): State
    requires Possible(s, e)
  {
    match e
    case Start(d) => Starts(s, d)
    case SwitchDevice(d) => Starts(StopCurrent(s.(retryTimer := false)), Some(d))
    case Stop => StopCurrent(s.(current := s.current + 1, retryTimer := false)).(state := Stopped)
    case Resolved(r, td) => Arrives(s, r, td)
    case Rejected(r, f) => Fails(s, r, f)
    case TimerFires => Starts(s.(retryTimer := false), s.device)
    case TrackEnded(r) => if r == s.current then s.(device := None, state := DeviceNotFound) else s
  }

  ghost predicate PossibleRun(s: State, es: seq<Event>)
    decreases |es|
  {
    es == [] || (Possible(s, es[0]) && PossibleRun(Step(s, es[0]), es[1..]))
  }

  ghost function Run(s: State, es: seq<Event>): State
    requires PossibleRun(s, es)
    decreases |es|
  {
    if es == [] then s else Run(Step(s, es[0]), es[1..])
  }

  // ----- What each event asks for and leaves behind -----

  /** A request is issued for this device: it is the newest, and no timed retry is left. */
  ghost predicate Requests(s: State, t: State, device: Option<Device>) {
    t.current == s.current + 1 && t.requests == s.requests[s.current + 1 := device] && t.state == Starting && !t.retryTimer
  }

  /** The stream in place, if any, has been stopped; no other one has. */
  ghost predicate NowStopped(s: State, t: State) {
    && |t.acquired| == |s.acquired| && t.stream == None && !t.hasTrack
    && forall i | 0 <= i < |s.acquired| :: t.acquired[i] <==> s.acquired[i] || s.stream == Some(i)
  }

  ghost predicate Untouched(s: State, t: State) {
    t.acquired == s.acquired && t.stream == s.stream && t.hasTrack == s.hasTrack
  }

  /** Requests that a user, a device switch or the timed retry issues, and what stops a stream. */
  lemma AskedExactly(s: State, e: Event)
    requires Possible(s, e)
    ensures var t := Step(s, e);
            match e
            case Start(d) => Requests(s, t, d) && Untouched(s, t) && t.device == s.device
            case SwitchDevice(d) => Requests(s, t, Some(d)) && NowStopped(s, t) && t.device == s.device
            case TimerFires => Requests(s, t, s.device) && Untouched(s, t) && t.device == s.device
            case Stop =>
              t.current == s.current + 1 && t.requests == s.requests && t.state == Stopped && !t.retryTimer
              && NowStopped(s, t) && t.device == s.device
            case TrackEnded(r) =>
              if r == s.current then t == s.(device := None, state := DeviceNotFound) else t == s
            case _ => true
  {
  }

  /**
   A stream that arrives late or without a track is stopped at once, a late one without another trace; any
   other replaces the one in place and its device is remembered.
   */
  lemma ArrivalExactly(s: State, r: RequestId, trackDevice: Option<Option<Device>>)
    requires Possible(s, Resolved(r, trackDevice))
    ensures var t := Step(s, Resolved(r, trackDevice));
            && t.requests == s.requests - {r} && t.current == s.current && t.retryTimer == s.retryTimer
            && |t.acquired| == |s.acquired| + 1
            && (if r == s.current && trackDevice.Some?
                then t.stream == Some(|s.acquired|) && t.hasTrack && !t.acquired[|s.acquired|] && t.state == Active
                     && t.installed == s.installed + {r}
                     && t.device == (if trackDevice.value.Some? then trackDevice.value else s.requests[r])
                     && forall i | 0 <= i < |s.acquired| :: t.acquired[i] <==> s.acquired[i] || s.stream == Some(i)
                else t.stream == s.stream && t.hasTrack == s.hasTrack && t.device == s.device && t.installed == s.installed
                     && t.acquired == s.acquired + [true] && t.state == if r == s.current then NoDevice else s.state)
  {
  }

  /**
   A vanished device that was asked for by name leads to a request without one; a late failure to nothing;
   any other is shown, with a timed retry exactly when the device is in use.
   */
  lemma FailureExactly(s: State, r: RequestId, f: Failure)
    requires Possible(s, Rejected(r, f))
    ensures var t := Step(s, Rejected(r, f)); var settled := s.(requests := s.requests - {r});
            && Untouched(s, t) && t.device == s.device && t.installed == s.installed
            && (s.requests[r].Some? && (f == NotFound || f == Overconstrained) ==> Requests(settled, t, None))
            && (!(s.requests[r].Some? && (f == NotFound || f == Overconstrained)) ==>
                  if r != s.current then t == settled
                  else t == settled.(state := t.state, retryTimer := t.retryTimer)
                       && (t.retryTimer <==> s.retryTimer || f == NotReadable)
                       && (t.state == DeviceInUse <==> f == NotReadable)
                       && (t.state == SystemDenied <==> f == NotAllowed(true))
                       && (t.state == CaptureCanceled <==> f == Aborted)
                       && (t.state == DeviceNotFound <==> f == NotFound || f == NotAllowed(false))
                       && (t.state == DeviceError <==> f == Overconstrained || f == Unknown))
  {
  }

  // ----- No leaked capture -----

  /** Every acquired stream is in place or stopped; ACTIVE comes with a stream and a track of the newest request. */
  ghost predicate Sound(s: State) {
    && (forall i | 0 <= i < |s.acquired| :: s.acquired[i] <==> s.stream != Some(i))
    && (s.stream.Some? ==> s.stream.value < |s.acquired|) && (s.hasTrack <==> s.stream.Some?)
    && (s.state == Active ==> s.stream.Some? && s.current in s.installed)
    && (forall r | r in s.requests :: r <= s.current && r !in s.installed)
    && (forall r | r in s.installed :: r <= s.current)
    && (s.current in s.requests ==> s.state == Starting)
    && (s.retryTimer ==> s.state == DeviceInUse || s.state == DeviceNotFound)
  }

  lemma StepSound(s: State, e: Event)
    requires Sound(s) && Possible(s, e)
    ensures Sound(Step(s, e))
  {
  }

  /** Over any interleaving, at most one acquired stream is running, and it is the one in place. */
  lemma {:induction false} NoLeakedCapture(s: State, es: seq<Event>)
    requires Sound(s) && PossibleRun(s, es)
    ensures Sound(Run(s, es))
    ensures var t := Run(s, es); forall i | 0 <= i < |t.acquired| :: t.acquired[i] || t.stream == Some(i)
    decreases |es|
  {
    if es != [] {
      StepSound(s, es[0]);
      hide Step, Sound;
      NoLeakedCapture(Step(s, es[0]), es[1..]);
    }
  }

  lemma InitialSound()
    ensures Sound(INITIAL)
  {
  }

  /** Only the newest request puts a stream in place; in particular never one older than a stop. */
  lemma OnlyNewestInstalls(s: State, e: Event)
    requires Sound(s) && Possible(s, e) && Step(s, e).stream != s.stream && Step(s, e).stream.Some?
    ensures e.Resolved? && e.request == s.current && s.state == Starting
    ensures Step(s, e).state == Active && Step(s, e).stream == Some(|s.acquired|)
  {
  }

  // ----- Retries -----

  function Retried(s: State, e: Event): nat
    requires Possible(s, e)
  {
    if e.Rejected? && DeviceMissing(e.failure) && s.requests[e.request].Some? then 1 else 0
  }

  /** Requests with a device that an event issues. */
  function Asked(s: State, e: Event): nat {
    match e
    case Start(d) => if d.Some? then 1 else 0
    case SwitchDevice(_) => 1
    case TimerFires => if s.device.Some? then 1 else 0
    case _ => 0
  }

  ghost function TotalRetries(s: State, es: seq<Event>): nat
    requires PossibleRun(s, es)
    decreases |es|
  {
    if es == [] then 0 else Retried(s, es[0]) + TotalRetries(Step(s, es[0]), es[1..])
  }

  ghost function TotalAsked(s: State, es: seq<Event>): nat
    requires PossibleRun(s, es)
    decreases |es|
  {
    if es == [] then 0 else Asked(s, es[0]) + TotalAsked(Step(s, es[0]), es[1..])
  }

  function WithDevice(s: State): set<RequestId> { set r | r in s.requests && s.requests[r].Some? }

  lemma StartsWithDevice(s: State, d: Option<Device>)
    requires s.current + 1 !in s.requests
    ensures WithDevice(Starts(s, d)) == WithDevice(s) + (if d.Some? then {s.current + 1} else {})
  {
  }

  lemma FailsWithDevice(s: State, r: RequestId, f: Failure)
    requires r in s.requests && s.current + 1 !in s.requests
    ensures WithDevice(Fails(s, r, f)) == WithDevice(s) - {r}
  {
    var t := s.(requests := s.requests - {r});
    assert WithDevice(t) == WithDevice(s) - {r};
    StartsWithDevice(t, None);
  }

  lemma ArrivesWithDevice(s: State, r: RequestId, trackDevice: Option<Option<Device>>)
    requires r in s.requests
    ensures WithDevice(Arrives(s, r, trackDevice)) == WithDevice(s) - {r}
  {
  }

  lemma StopCurrentKeeps(s: State)
    ensures WithDevice(StopCurrent(s)) == WithDevice(s) && StopCurrent(s).current == s.current && StopCurrent(s).requests == s.requests
  {
  }

  /** The outstanding requests for a named device after an event. */
  lemma StepDevices(s: State, e: Event)
    requires Sound(s) && Possible(s, e)
    ensures WithDevice(Step(s, e)) ==
            match e
            case Start(d) => WithDevice(s) + (if d.Some? then {s.current + 1} else {})
            case SwitchDevice(_) => WithDevice(s) + {s.current + 1}
            case TimerFires => WithDevice(s) + (if s.device.Some? then {s.current + 1} else {})
            case Resolved(r, _) => WithDevice(s) - {r}
            case Rejected(r, _) => WithDevice(s) - {r}
            case _ => WithDevice(s)
  {
    assert s.current + 1 !in s.requests;
    hide Sound, Starts, StopCurrent, Arrives, Fails;
    match e
    case Start(d) => StartsWithDevice(s, d);
    case SwitchDevice(d) =>
      var t := s.(retryTimer := false);
      assert WithDevice(t) == WithDevice(s);
      StopCurrentKeeps(t);
      StartsWithDevice(StopCurrent(t), Some(d));
    case Stop =>
      var t := s.(current := s.current + 1, retryTimer := false);
      assert WithDevice(t) == WithDevice(s);
      StopCurrentKeeps(t);
      assert WithDevice(StopCurrent(t).(state := Stopped)) == WithDevice(StopCurrent(t));
    case Resolved(r, td) => ArrivesWithDevice(s, r, td);
    case Rejected(r, f) => FailsWithDevice(s, r, f);
    case TimerFires =>
      assert WithDevice(s.(retryTimer := false)) == WithDevice(s);
      StartsWithDevice(s.(retryTimer := false), s.device);
    case TrackEnded(_) => assert WithDevice(Step(s, e)) == WithDevice(s);
  }

  lemma StepRetries(s: State, e: Event)
    requires Sound(s) && Possible(s, e)
    ensures |WithDevice(Step(s, e))| + Retried(s, e) <= |WithDevice(s)| + Asked(s, e)
  {
    StepDevices(s, e);
    assert Retried(s, e) == 1 ==> e.request in WithDevice(s);
    hide Step, Sound, WithDevice;
    Grow(WithDevice(s), s.current + 1);
  }

  lemma Grow(a: set<RequestId>, x: RequestId)
    ensures |a + {x}| <= |a| + 1 && a + {} == a
  {
  }

  /** Over any run the device-less retries never outnumber the starts that named a device. */
  lemma {:induction false} RetriesBoundedByStarts(s: State, es: seq<Event>)
    requires Sound(s) && PossibleRun(s, es)
    ensures TotalRetries(s, es) + |WithDevice(Run(s, es))| <= |WithDevice(s)| + TotalAsked(s, es)
    decreases |es|
  {
    if es != [] {
      StepSound(s, es[0]);
      StepRetries(s, es[0]);
      hide Step, Sound, WithDevice, Retried, Asked;
      RetriesBoundedByStarts(Step(s, es[0]), es[1..]);
    }
  }

  /** How often request `r` is answered with a retry. */
  ghost function RetriesOf(s: State, es: seq<Event>, r: RequestId): nat
    requires PossibleRun(s, es)
    decreases |es|
  {
    if es == [] then 0
    else (if es[0].Rejected? && es[0].request == r then Retried(s, es[0]) else 0) + RetriesOf(Step(s, es[0]), es[1..], r)
  }

  /** Request `r` can still be retried: it is outstanding for a named device, or not yet issued. */
  predicate Retriable(s: State, r: RequestId) {
    r > s.current || (r in s.requests && s.requests[r].Some?)
  }

  /** A request that is answered is gone for good, and no later one has its number. */
  lemma StepRetriable(s: State, e: Event, r: RequestId)
    requires Sound(s) && Possible(s, e)
    ensures Retriable(Step(s, e), r) ==> Retriable(s, r)
    ensures e.Rejected? && e.request == r && Retried(s, e) == 1 ==> Retriable(s, r) && !Retriable(Step(s, e), r)
  {
  }

  /** Each request is retried at most once, in every run; one that cannot be retried now never is. */
  lemma {:induction false} AtMostOneRetryEach(s: State, es: seq<Event>, r: RequestId)
    requires Sound(s) && PossibleRun(s, es)
    ensures RetriesOf(s, es, r) <= if Retriable(s, r) then 1 else 0
    decreases |es|
  {
    if es != [] {
      StepSound(s, es[0]);
      StepRetriable(s, es[0], r);
      hide Step, Sound, Retriable;
      AtMostOneRetryEach(Step(s, es[0]), es[1..], r);
    }
  }

  /** The request a retry issues is never retried itself. */
  lemma RetryNeverRetries(s: State, e: Event, es: seq<Event>)
    requires Sound(s) && Possible(s, e) && Retried(s, e) == 1 && PossibleRun(Step(s, e), es)
    ensures Step(s, e).current == s.current + 1 && s.current + 1 in Step(s, e).requests
    ensures RetriesOf(Step(s, e), es, s.current + 1) == 0
  {
    StepSound(s, e);
    AtMostOneRetryEach(Step(s, e), es, s.current + 1);
  }

  // ----- After a stop -----

  /** Nothing the user does: only the browser and the timer. */
  predicate Passive(e: Event) { !e.Start? && !e.SwitchDevice? && !e.Stop? }

  ghost predicate Quiet(s: State) {
    && s.state == Stopped && s.stream == None && !s.retryTimer && WithDevice(s) == {}
    && s.current !in s.requests && s.current !in s.installed
  }

  lemma QuietStep(s: State, e: Event)
    requires Sound(s) && Quiet(s) && Possible(s, e) && Passive(e)
    ensures Sound(Step(s, e)) && Quiet(Step(s, e))
  {
    StepSound(s, e);
    if e.Resolved? { assert WithDevice(Step(s, e)) == WithDevice(s); }
    if e.Rejected? {
      assert e.request !in WithDevice(s);
      assert WithDevice(Step(s, e)) == WithDevice(s);
    }
  }

  lemma {:induction false} QuietRun(s: State, es: seq<Event>)
    requires Sound(s) && Quiet(s) && PossibleRun(s, es) && forall e | e in es :: Passive(e)
    ensures Run(s, es).state == Stopped && Run(s, es).stream == None
    decreases |es|
  {
    if es != [] {
      assert es[0] in es;
      QuietStep(s, es[0]);
      hide Step, Sound;
      QuietRun(Step(s, es[0]), es[1..]);
    }
  }

  /** A run that turns the capture on again after a stop, without the user: the retry comes before the staleness check. */
  lemma StoppedStartRevived(s: State, r: RequestId)
    requires Sound(s) && r in WithDevice(s)
    ensures var es := [Rejected(r, NotFound), Resolved(s.current + 2, Some(None))];
            PossibleRun(Step(s, Stop), es) && Run(Step(s, Stop), es).state == Active && forall e | e in es :: Passive(e)
  {
    var e1, e2 := Rejected(r, NotFound), Resolved(s.current + 2, Some(None));
    var s0 := Step(s, Stop);
    assert s0.current == s.current + 1 && r in s0.requests && s0.requests[r].Some?;
    assert Possible(s0, e1);
    var s1 := Step(s0, e1);
    assert s1.current == s.current + 2 && s1.current in s1.requests;
    assert Possible(s1, e2);
    var s2 := Step(s1, e2);
    assert s2.state == Active;
    hide Step, Possible, Sound, WithDevice;
    assert PossibleRun(s2, []) && Run(s2, []) == s2;
    RunCons(s1, e2, []);
    RunCons(s0, e1, [e2] + []);
    assert [e1] + ([e2] + []) == [e1, e2];
  }

  lemma RunCons(s: State, e: Event, es: seq<Event>)
    requires Possible(s, e) && PossibleRun(Step(s, e), es)
    ensures PossibleRun(s, [e] + es) && Run(s, [e] + es) == Run(Step(s, e), es)
  {
    assert ([e] + es)[1..] == es;
  }

  /**
   After a stop nothing starts by itself, whatever the browser still answers, exactly when no request
   for a named device was outstanding at the stop.
   */
  lemma StopHoldsExactly(s: State)
    requires Sound(s)
    ensures WithDevice(s) == {} <==>
            forall es | PossibleRun(Step(s, Stop), es) && (forall e | e in es :: Passive(e)) ::
              Run(Step(s, Stop), es).state == Stopped
  {
    var s0 := Step(s, Stop);
    StepSound(s, Stop);
    assert WithDevice(s0) == WithDevice(s);
    if WithDevice(s) == {} {
      assert Quiet(s0);
      hide Step, Sound, Quiet;
      forall es | PossibleRun(s0, es) && (forall e | e in es :: Passive(e)) ensures Run(s0, es).state == Stopped {
        QuietRun(s0, es);
      }
    } else {
      var r :| r in WithDevice(s);
      StoppedStartRevived(s, r);
      hide Step, Sound, Quiet, WithDevice;
    }
  }
}
