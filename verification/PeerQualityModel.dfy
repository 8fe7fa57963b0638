/**
 Simulcast adaptation as an abstract machine: a debounced cache of the layers last requested for
 each peer, driven by stats reports, viewport and page visibility, and debounce timers. The engine
 with its timer handles is in PeerQualityEngine.dfy.
 */
module PeerQualityModel {
  import opened Common

  type UserId = nat
  type Layer = nat

  datatype Level = Excellent | Good | Fair | Poor

  function QualityToSpatialLayer(level: Level): Layer {
    match level
    case Excellent => 2
    case Good => 2
    case Fair => 1
    case Poor => 0
  }

  /** What was sent for one user: requests, and the points where the engine forgot the last one. */
  datatype Mark = Sent(layer: Layer) | Forgot

  datatype Engine = Engine(
    bound: bool,
    stats: map<UserId, Level>,
    hidden: set<UserId>,
    suspended: bool,
    pending: map<UserId, Level>,       // armed timers, with the level captured when armed
    last: map<UserId, Layer>,          // lastEmittedLayer
    known: set<UserId>,
    history: map<UserId, seq<Mark>>,   // history of requests per user
    excused: set<UserId>)              // history: last fire found no consumer, or the user left since

  const IDLE := Engine(false, map[], {}, false, map[], map[], {}, map[], {})

  /** The layer the current inputs imply for a user with the given level. */
  function Clamp(e: Engine, u: UserId, level: Level): Layer {
    if u !in e.hidden && !e.suspended then QualityToSpatialLayer(level) else 0
  }

  function Effective(e: Engine, u: UserId): Layer
    requires u in e.stats
  {
    Clamp(e, u, e.stats[u])
  }

  function Past(history: map<UserId, seq<Mark>>, u: UserId): seq<Mark> {
    if u in history then history[u] else []
  }

  /** The last request equals what the inputs imply. */
  predicate Current(e: Engine, u: UserId)
    requires u in e.stats
  {
    u in e.last && e.last[u] == Effective(e, u)
  }

  // ----- Operations -----

  /** scheduleLayerSwitch for every user in `us`; each call concerns its own user only. */
  function Schedule(e: Engine, us: set<UserId>): Engine {
    if !e.bound then e
    else
      var armed := set u | u in us && u in e.stats && !Current(e, u);
      e.(pending := map u | u in e.pending.Keys + armed :: if u in armed then e.stats[u] else e.pending[u],
         excused := e.excused - armed)
  }

  function Forget(e: Engine, us: set<UserId>): Engine {
    e.(pending := e.pending - us,
       last := e.last - us,
       history := map u | u in e.history.Keys + us :: if u in us then Past(e.history, u) + [Forgot] else e.history[u])
  }

  function Report(e: Engine, stats: map<UserId, Level>): Engine {
    var e1 := Forget(e.(stats := stats), (e.pending.Keys + e.last.Keys) - stats.Keys);
    Schedule(e1.(known := e1.known + stats.Keys), stats.Keys)
  }

  function SetVisibility(e: Engine, u: UserId, visible: bool): Engine {
    if (u !in e.hidden) == visible then e
    else Schedule(e.(hidden := if visible then e.hidden - {u} else e.hidden + {u}), {u})
  }

  function SetSuspended(e: Engine, on: bool): Engine {
    if e.suspended == on then e else Schedule(e.(suspended := on), e.known)
  }

  function ParticipantLeft(e: Engine, u: UserId): Engine {
    if !e.bound then e
    else
      var e1 := Forget(e, {u});
      e1.(excused := e1.excused + {u})
  }

  /** The debounce timer of `u` fires; `consumer` says whether its camera consumer exists. */
  function Fire(e: Engine, u: UserId, consumer: bool): Engine
    requires u in e.pending
  {
    var layer := Clamp(e, u, if u in e.stats then e.stats[u] else e.pending[u]);
    var e1 := e.(pending := e.pending - {u});
    if !consumer then
      e1.(last := e.last - {u}, history := e.history[u := Past(e.history, u) + [Forgot]], excused := e.excused + {u})
    else if u in e.last && e.last[u] == layer then e1
    else
      e1.(last := e.last[u := layer], history := e.history[u := Past(e.history, u) + [Sent(layer)]])
  }

  function Unbind(e: Engine): Engine {
    if !e.bound then e
    else
      var e1 := Forget(e, e.pending.Keys + e.last.Keys);
      Engine(false, map[], {}, false, e1.pending, e1.last, {}, e1.history, {})
  }

  function Bind(e: Engine): Engine {
    Unbind(e).(bound := true)
  }

  // ----- The operations run user by user -----

  /** One call of the scheduler. */
  lemma ScheduleOne(e: Engine, u: UserId)
    ensures Schedule(e, {u}) == if !e.bound || u !in e.stats || Current(e, u) then e
                                else e.(pending := e.pending[u := e.stats[u]], excused := e.excused - {u})
  {
    var one := Schedule(e, {u});
    assert one.pending == if !e.bound || u !in e.stats || Current(e, u) then e.pending else e.pending[u := e.stats[u]];
  }

  lemma ScheduleOneMore(e: Engine, us: set<UserId>, u: UserId)
    requires u !in us
    ensures Schedule(Schedule(e, us), {u}) == Schedule(e, us + {u})
  {
    if e.bound {
      var one, two := Schedule(Schedule(e, us), {u}), Schedule(e, us + {u});
      assert one.excused == two.excused;
      assert one.pending.Keys == two.pending.Keys;
      forall v | v in one.pending ensures one.pending[v] == two.pending[v] {}
    }
  }

  lemma ForgetOneMore(e: Engine, us: set<UserId>, u: UserId)
    requires u !in us
    ensures Forget(Forget(e, us), {u}) == Forget(e, us + {u})
  {
    var one, two := Forget(Forget(e, us), {u}), Forget(e, us + {u});
    assert one.pending == two.pending && one.last == two.last;
    assert one.history.Keys == two.history.Keys;
    forall v | v in one.history ensures one.history[v] == two.history[v] {}
  }

  lemma NothingToDo(e: Engine)
    ensures Schedule(e, {}) == e && Forget(e, {}) == e
  {
    assert e.pending - {} == e.pending && e.last - {} == e.last;
    assert Forget(e, {}).history == e.history;
    assert Schedule(e, {}).pending == e.pending;
  }

  // ----- Runs -----

  datatype Event =
    | Reported(stats: map<UserId, Level>)
    | VisibilityChanged(user: UserId, visible: bool)
    | PageSuspended(on: bool)
    | UserLeft(user: UserId)
    | TimerFired(user: UserId, consumer: bool)
    | Bound
    | Unbound

  /** Stats arrive only from the bound manager; only armed timers fire. */
  predicate Possible(e: Engine, ev: Event) {
    && (ev.Reported? ==> e.bound)
    && (ev.TimerFired? ==> ev.user in e.pending)
  }

  function Step(e: Engine, ev: Event): Engine
    requires Possible(e, ev)
  {
    match ev
    case Reported(stats) => Report(e, stats)
    case VisibilityChanged(user, visible) => SetVisibility(e, user, visible)
    case PageSuspended(on) => SetSuspended(e, on)
    case UserLeft(user) => ParticipantLeft(e, user)
    case TimerFired(user, consumer) => Fire(e, user, consumer)
    case Bound => Bind(e)
    case Unbound => Unbind(e)
  }

  ghost predicate PossibleRun(e: Engine, evs: seq<Event>)
    decreases |evs|
  {
    evs == [] || (Possible(e, evs[0]) && PossibleRun(Step(e, evs[0]), evs[1..]))
  }

  ghost function Run(e: Engine, evs: seq<Event>): Engine
    requires PossibleRun(e, evs)
    decreases |evs|
  {
    if evs == [] then e else Run(Step(e, evs[0]), evs[1..])
  }

  // ----- What the inputs are and what they ask for -----

  /** The layer a peer of the given score is to be requested at, by whether it is shown on an active page. */
  ghost predicate LayerFor(level: Level, shown: bool, layer: Layer) {
    && (!shown ==> layer == 0)
    && (shown && (level == Excellent || level == Good) ==> layer == 2)
    && (shown && level == Fair ==> layer == 1)
    && (shown && level == Poor ==> layer == 0)
  }

  /** The user's last request is the one its score asks for while it is shown on an active page, else the lowest. */
  ghost predicate AtItsLayer(e: Engine, u: UserId) {
    u in e.stats && u in e.last && LayerFor(e.stats[u], u !in e.hidden && !e.suspended, e.last[u])
  }

  lemma LayerExactly(level: Level, shown: bool, layer: Layer)
    ensures LayerFor(level, shown, layer) <==> layer == if shown then QualityToSpatialLayer(level) else 0
  {
  }

  lemma CurrentExactly(e: Engine, u: UserId)
    requires u in e.stats
    ensures Current(e, u) <==> AtItsLayer(e, u)
    ensures LayerFor(e.stats[u], u !in e.hidden && !e.suspended, Effective(e, u))
  {
  }

  lemma RunSnoc(e: Engine, evs: seq<Event>, ev: Event)
    requires PossibleRun(e, evs) && Possible(Run(e, evs), ev)
    ensures PossibleRun(e, evs + [ev]) && Run(e, evs + [ev]) == Step(Run(e, evs), ev)
    decreases |evs|
  {
    if evs == [] {
      assert evs + [ev] == [ev] && Run(Step(e, ev), []) == Step(e, ev);
    } else {
      assert (evs + [ev])[1..] == evs[1..] + [ev];
      RunSnoc(Step(e, evs[0]), evs[1..], ev);
    }
  }

  lemma {:induction false} RunPrefix(e: Engine, evs: seq<Event>)
    requires PossibleRun(e, evs) && evs != []
    ensures var n := |evs| - 1; PossibleRun(e, evs[..n]) && Possible(Run(e, evs[..n]), evs[n]) && Run(e, evs) == Step(Run(e, evs[..n]), evs[n])
    decreases |evs|
  {
    var n := |evs| - 1;
    if n > 0 {
      RunPrefix(Step(e, evs[0]), evs[1..]);
      assert evs[1..][..n - 1] == evs[..n][1..];
    } else {
      assert evs[..0] == [] && evs[1..] == [];
    }
  }

  /** A manager is bound after these events. */
  ghost predicate BoundBy(evs: seq<Event>) {
    if evs == [] then false
    else
      var last := evs[|evs| - 1];
      if last.Bound? then true else if last.Unbound? then false else BoundBy(evs[..|evs| - 1])
  }

  /** The inputs start over: the manager that was bound goes. */
  ghost predicate StartsOver(before: seq<Event>, last: Event) { (last.Bound? || last.Unbound?) && BoundBy(before) }

  /** The last the engine was told is that the user is out of the viewport. */
  ghost predicate HiddenBy(evs: seq<Event>, u: UserId) {
    if evs == [] then false
    else
      var before, last := evs[..|evs| - 1], evs[|evs| - 1];
      if last.VisibilityChanged? && last.user == u then !last.visible
      else !StartsOver(before, last) && HiddenBy(before, u)
  }

  ghost predicate SuspendedBy(evs: seq<Event>) {
    if evs == [] then false
    else
      var before, last := evs[..|evs| - 1], evs[|evs| - 1];
      if last.PageSuspended? then last.on else !StartsOver(before, last) && SuspendedBy(before)
  }

  /** The last report. */
  ghost function StatsBy(evs: seq<Event>): map<UserId, Level> {
    if evs == [] then map[]
    else
      var before, last := evs[..|evs| - 1], evs[|evs| - 1];
      if last.Reported? then last.stats else if StartsOver(before, last) then map[] else StatsBy(before)
  }

  /** The user was last found without a consumer, or left, and no timer of it has been armed since. */
  ghost predicate ExcusedBy(evs: seq<Event>, u: UserId) {
    if evs == [] then false
    else
      var before, last := evs[..|evs| - 1], evs[|evs| - 1];
      if (last.TimerFired? && last.user == u && !last.consumer) || (last.UserLeft? && last.user == u && BoundBy(before)) then true
      else !StartsOver(before, last) && ExcusedBy(before, u)
  }

  lemma StepInputs(e: Engine, ev: Event)
    requires Possible(e, ev)
    ensures var e' := Step(e, ev); var over := (ev.Bound? || ev.Unbound?) && e.bound;
            && e'.bound == (ev.Bound? || (!ev.Unbound? && e.bound))
            && e'.suspended == (if ev.PageSuspended? then ev.on else !over && e.suspended)
            && e'.stats == (if ev.Reported? then ev.stats else if over then map[] else e.stats)
            && (forall u :: u in e'.hidden <==>
                  if ev.VisibilityChanged? && ev.user == u then !ev.visible else !over && u in e.hidden)
            && (forall u | u in e'.excused :: (ev.TimerFired? && ev.user == u && !ev.consumer)
                  || (ev.UserLeft? && ev.user == u && e.bound) || (!over && u in e.excused))
  {
  }

  /** Whatever happens in between, the inputs are what the engine was last told since the manager was bound. */
  lemma {:induction false} InputsTracked(evs: seq<Event>)
    requires PossibleRun(IDLE, evs)
    ensures var e := Run(IDLE, evs);
            && e.bound == BoundBy(evs) && e.suspended == SuspendedBy(evs) && e.stats == StatsBy(evs)
            && (forall u :: u in e.hidden <==> HiddenBy(evs, u))
            && (forall u | u in e.excused :: ExcusedBy(evs, u))
    decreases |evs|
  {
    if evs != [] {
      RunPrefix(IDLE, evs);
      InputsTracked(evs[..|evs| - 1]);
      StepInputs(Run(IDLE, evs[..|evs| - 1]), evs[|evs| - 1]);
      hide Step, Run, PossibleRun, Possible;
    }
  }

  // ----- Theorems -----

  /** Every reported user is up to date, about to be re-examined, or excused. */
  ghost predicate Agreement(e: Engine) {
    forall u | u in e.stats && u in e.known :: Current(e, u) || u in e.pending || u in e.excused
  }

  /** The cache remembers exactly the last request; nothing is cached or armed for an unreported user. */
  ghost predicate Faithful(e: Engine) {
    Keyed(e) && Remembers(e.last, e.history)
  }

  ghost predicate Keyed(e: Engine) {
    && e.pending.Keys <= e.stats.Keys && e.last.Keys <= e.stats.Keys && e.stats.Keys <= e.known
    && e.excused !! e.pending.Keys && e.excused !! e.last.Keys
    && (!e.bound ==> e.pending == map[] && e.last == map[] && e.stats == map[])
  }

  ghost predicate Remembers(last: map<UserId, Layer>, history: map<UserId, seq<Mark>>) {
    && (forall u | u in last :: Past(history, u) != [] && Past(history, u)[|Past(history, u)| - 1] == Sent(last[u]))
    && (forall u | u !in last && Past(history, u) != [] :: Past(history, u)[|Past(history, u)| - 1] == Forgot)
  }

  /** No layer is requested twice in a row for a user, unless the engine forgot in between. */
  ghost predicate NoRepeat(marks: seq<Mark>) {
    forall i | 0 <= i < |marks| - 1 :: marks[i].Sent? && marks[i + 1].Sent? ==> marks[i].layer != marks[i + 1].layer
  }

  ghost predicate NeverRepeats(history: map<UserId, seq<Mark>>) {
    forall u :: NoRepeat(Past(history, u))
  }

  ghost predicate Sound(e: Engine) {
    Agreement(e) && Faithful(e) && NeverRepeats(e.history)
  }

  lemma Forgotten(e: Engine, us: set<UserId>)
    ensures Forget(e, us).last == e.last - us && Forget(e, us).pending == e.pending - us
    ensures forall u :: Past(Forget(e, us).history, u) == Past(e.history, u) + (if u in us then [Forgot] else [])
  {
  }

  lemma ForgetRemembers(e: Engine, us: set<UserId>)
    requires Remembers(e.last, e.history)
    ensures Remembers(Forget(e, us).last, Forget(e, us).history)
  {
    Forgotten(e, us);
    hide Forget, Past;
  }

  lemma ForgetNeverRepeats(e: Engine, us: set<UserId>)
    requires NeverRepeats(e.history)
    ensures NeverRepeats(Forget(e, us).history)
  {
    Forgotten(e, us);
    hide Forget, Past;
    forall u ensures NoRepeat(Past(Forget(e, us).history, u)) {
      assert NoRepeat(Past(e.history, u));
    }
  }

  lemma ForgetFaithful(e: Engine, us: set<UserId>)
    requires NeverRepeats(e.history) && Remembers(e.last, e.history)
    ensures NeverRepeats(Forget(e, us).history) && Remembers(Forget(e, us).last, Forget(e, us).history)
  {
    ForgetRemembers(e, us);
    ForgetNeverRepeats(e, us);
  }

  /** Scheduling a set of users brings them into agreement and disturbs no one else. */
  lemma ScheduleAgrees(e: Engine, us: set<UserId>)
    requires e.bound && Faithful(e) && NeverRepeats(e.history)
    requires forall u | u in e.stats && u in e.known && u !in us :: Current(e, u) || u in e.pending || u in e.excused
    ensures Sound(Schedule(e, us))
  {
    var e' := Schedule(e, us);
    forall u | u in e'.stats && u in e'.known ensures Current(e', u) || u in e'.pending || u in e'.excused {
      assert Effective(e', u) == Effective(e, u);
    }
  }

  lemma StepSound(e: Engine, ev: Event)
    requires Sound(e) && Possible(e, ev)
    ensures Sound(Step(e, ev))
  {
    hide Remembers, NeverRepeats;
    match ev
    case Reported(stats) =>
      var gone := (e.pending.Keys + e.last.Keys) - stats.Keys;
      var e0 := e.(stats := stats);
      ForgetFaithful(e0, gone);
      var e1 := Forget(e0, gone);
      ScheduleAgrees(e1.(known := e1.known + stats.Keys), stats.Keys);
    case VisibilityChanged(u, visible) =>
      if (u !in e.hidden) != visible {
        VisibilitySound(e, u, visible);
      }
    case PageSuspended(on) =>
      if e.suspended != on {
        if e.bound {
          ScheduleAgrees(e.(suspended := on), e.known);
        }
      }
    case UserLeft(u) =>
      if e.bound {
        ForgetFaithful(e, {u});
        LeftSound(e, u);
      }
    case TimerFired(u, consumer) => FireSound(e, u, consumer);
    case Bound => UnbindSound(e);
    case Unbound => UnbindSound(e);
  }

  lemma VisibilitySound(e: Engine, u: UserId, visible: bool)
    requires Sound(e)
    ensures Sound(Schedule(e.(hidden := if visible then e.hidden - {u} else e.hidden + {u}), {u}))
  {
    var e1 := e.(hidden := if visible then e.hidden - {u} else e.hidden + {u});
    if e.bound {
      forall v | v in e1.stats && v in e1.known && v !in {u} ensures Current(e1, v) || v in e1.pending || v in e1.excused {
        assert Effective(e1, v) == Effective(e, v);
      }
      ScheduleAgrees(e1, {u});
    }
  }

  lemma LeftSound(e: Engine, u: UserId)
    requires Sound(e) && e.bound
    ensures Agreement(ParticipantLeft(e, u))
  {
    var e' := ParticipantLeft(e, u);
    forall v | v in e'.stats && v in e'.known ensures Current(e', v) || v in e'.pending || v in e'.excused {
      assert Effective(e', v) == Effective(e, v);
    }
  }

  lemma UnbindSound(e: Engine)
    requires Sound(e)
    ensures Sound(Unbind(e)) && Sound(Bind(e))
  {
    if e.bound {
      ForgetFaithful(e, e.pending.Keys + e.last.Keys);
    }
  }

  /**
   A request is sent exactly when there is a consumer and the last one differs, and it is for the layer the
   inputs ask for at that moment.
   */
  lemma FireRequests(e: Engine, u: UserId, consumer: bool)
    requires Faithful(e) && u in e.pending
    ensures var e' := Fire(e, u, consumer);
            && u in e.stats && e'.stats == e.stats && e'.hidden == e.hidden && e'.suspended == e.suspended
            && e'.pending == e.pending - {u} && e'.excused == (if consumer then e.excused else e.excused + {u})
            && (consumer ==> AtItsLayer(e', u) && e'.last == e.last[u := e'.last[u]])
            && (!consumer ==> e'.last == e.last - {u})
            && Past(e'.history, u) == Past(e.history, u)
                 + (if !consumer then [Forgot] else if AtItsLayer(e, u) then [] else [Sent(e'.last[u])])
  {
    CurrentExactly(e, u);
    hide Remembers;
  }

  lemma MarkAppended(last: map<UserId, Layer>, history: map<UserId, seq<Mark>>, u: UserId, m: Mark)
    requires Remembers(last, history) && NeverRepeats(history)
    requires m.Sent? && u in last ==> last[u] != m.layer
    ensures var history' := history[u := Past(history, u) + [m]];
            && NeverRepeats(history')
            && Remembers(if m.Sent? then last[u := m.layer] else last - {u}, history')
  {
    var history' := history[u := Past(history, u) + [m]];
    assert NoRepeat(Past(history, u));
    forall v ensures NoRepeat(Past(history', v)) {
      if v != u { assert NoRepeat(Past(history, v)); }
    }
  }

  lemma FireAgrees(e: Engine, u: UserId, consumer: bool)
    requires Keyed(e) && Agreement(e) && u in e.pending
    ensures Agreement(Fire(e, u, consumer))
  {
    var e' := Fire(e, u, consumer);
    forall v | v in e'.stats && v in e'.known ensures Current(e', v) || v in e'.pending || v in e'.excused {
      assert Effective(e', v) == Effective(e, v);
    }
  }

  lemma FireKeyed(e: Engine, u: UserId, consumer: bool)
    requires Keyed(e) && u in e.pending
    ensures Keyed(Fire(e, u, consumer))
  {
    hide Clamp, Past;
  }

  lemma FireSound(e: Engine, u: UserId, consumer: bool)
    requires Sound(e) && u in e.pending
    ensures Sound(Fire(e, u, consumer))
  {
    FireAgrees(e, u, consumer);
    FireKeyed(e, u, consumer);
    hide Agreement;
    if !consumer {
      MarkAppended(e.last, e.history, u, Forgot);
    } else if !Current(e, u) {
      MarkAppended(e.last, e.history, u, Sent(Effective(e, u)));
    }
    hide Remembers, NeverRepeats, Past;
  }

  /**
   In every reachable state each reported user is at the layer its score, visibility and the page ask for,
   or has a timer armed, or is excused; the cache holds exactly the last request; and no layer was requested twice in a row.
   */
  lemma {:induction false} CacheAlwaysAgrees(e: Engine, evs: seq<Event>)
    requires Sound(e) && PossibleRun(e, evs)
    ensures Sound(Run(e, evs))
    ensures var f := Run(e, evs);
            && (forall u | u in f.stats :: AtItsLayer(f, u) || u in f.pending || u in f.excused)
            && (forall u | u in f.last :: Past(f.history, u) != [] && Past(f.history, u)[|Past(f.history, u)| - 1] == Sent(f.last[u]))
            && (forall u :: NoRepeat(Past(f.history, u)))
    decreases |evs|
  {
    if evs != [] {
      StepSound(e, evs[0]);
      hide Step, Sound, Past, NoRepeat, Current, AtItsLayer;
      CacheAlwaysAgrees(Step(e, evs[0]), evs[1..]);
    } else {
      forall u | u in e.stats && Current(e, u) ensures AtItsLayer(e, u) { CurrentExactly(e, u); }
    }
  }

  lemma IdleSound()
    ensures Sound(IDLE)
  {
  }

  // ----- Quiescence -----

  /** All armed timers fire, in the given order, with every consumer in place and no new input. */
  ghost function Drain(e: Engine, order: seq<UserId>): Engine
    decreases |order|
  {
    if order == [] then e
    else if order[0] in e.pending then Drain(Fire(e, order[0], true), order[1..])
    else Drain(e, order[1..])
  }

  /**
   Letting the timers run out reaches agreement: every reported user that is not excused has been
   requested exactly the layer its score, visibility and the page ask for.
   */
  lemma {:induction false} DrainAgrees(e: Engine, order: seq<UserId>)
    requires Sound(e) && forall u | u in e.pending :: u in order
    ensures Sound(Drain(e, order)) && Drain(e, order).pending == map[]
    ensures Drain(e, order).stats == e.stats && Drain(e, order).known == e.known && Drain(e, order).excused == e.excused
    ensures Drain(e, order).hidden == e.hidden && Drain(e, order).suspended == e.suspended
    ensures forall u | u in e.stats && u !in e.excused :: AtItsLayer(Drain(e, order), u)
    decreases |order|
  {
    if order == [] {
      assert e.pending.Keys == {};
      forall u | u in e.stats && u !in e.excused ensures AtItsLayer(e, u) {
        assert Current(e, u);
        CurrentExactly(e, u);
      }
    } else {
      assert order == [order[0]] + order[1..];
      if order[0] in e.pending {
        FireSound(e, order[0], true);
        FireRequests(e, order[0], true);
        DrainAgrees(Fire(e, order[0], true), order[1..]);
      } else {
        DrainAgrees(e, order[1..]);
      }
    }
  }
}
