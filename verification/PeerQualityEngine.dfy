/**
 The engine behind PeerQualityModel: debounce timers with handles, and the loops over users that
 the model treats as single operations.
 */
module PeerQualityEngine {
  import opened Common
  import opened M = PeerQualityModel

  type TimerId = nat
  type ConsumerId = nat

  /** What a debounce callback closes over. */
  datatype Armed = Armed(user: UserId, level: Level)

  datatype LayerRequest = LayerRequest(consumer: ConsumerId, layer: Layer)

  /** One armed timer per pending user, and no orphan. Handles are never reused. */
  ghost predicate TimersOk(timers: map<UserId, TimerId>, armed: map<TimerId, Armed>, next: TimerId) {
    && (forall u | u in timers :: timers[u] in armed && armed[timers[u]].user == u)
    && (forall t | t in armed :: t < next && armed[t].user in timers && timers[armed[t].user] == t)
  }

  ghost function PendingOf(timers: map<UserId, TimerId>, armed: map<TimerId, Armed>): map<UserId, Level> {
    map u | u in timers :: if timers[u] in armed then armed[timers[u]].level else Poor
  }

  lemma TimerReplaced(timers: map<UserId, TimerId>, armed: map<TimerId, Armed>, next: TimerId, u: UserId, level: Level)
    requires TimersOk(timers, armed, next)
    ensures var armed' := (armed - (if u in timers then {timers[u]} else {}))[next := Armed(u, level)];
            && TimersOk(timers[u := next], armed', next + 1)
            && PendingOf(timers[u := next], armed') == PendingOf(timers, armed)[u := level]
  {
  }

  lemma TimerCleared(timers: map<UserId, TimerId>, armed: map<TimerId, Armed>, next: TimerId, u: UserId)
    requires TimersOk(timers, armed, next) && u in timers
    ensures TimersOk(timers - {u}, armed - {timers[u]}, next)
    ensures PendingOf(timers - {u}, armed - {timers[u]}) == PendingOf(timers, armed) - {u}
  {
  }

  lemma TimerArmed(timers: map<UserId, TimerId>, armed: map<TimerId, Armed>, next: TimerId, t: TimerId)
    requires TimersOk(timers, armed, next) && t in armed
    ensures var u := armed[t].user;
            u in timers && timers[u] == t && u in PendingOf(timers, armed) && PendingOf(timers, armed)[u] == armed[t].level
  {
  }

  /** Unbinding clears all layer state and resets the inputs. */
  lemma UnboundFirst(e: Engine)
    requires e.bound
    ensures M.Unbind(e) == Forget(e.(bound := false), e.pending.Keys + e.last.Keys).(
                             stats := map[], hidden := {}, suspended := false, known := {}, excused := {})
  {
  }

  lemma UnboundAlready(e: Engine)
    requires !e.bound
    ensures M.Unbind(e) == e
  {
  }

  lemma ForgetOne(e: Engine, u: UserId)
    ensures Forget(e, {u}) ==
            e.(pending := e.pending - {u}, last := e.last - {u}, history := e.history[u := Past(e.history, u) + [Forgot]])
  {
    assert Forget(e, {u}).history == e.history[u := Past(e.history, u) + [Forgot]];
  }

  class PeerQualityEngine {
    var stats: map<UserId, Level>
    var hiddenUsers: set<UserId>
    var suspended: bool
    var layerTimers: map<UserId, TimerId>
    var lastEmittedLayer: map<UserId, Layer>
    var knownPeers: set<UserId>
    var bound: bool

    // The event loop's share: armed timers by handle.
    var armed: map<TimerId, Armed>
    var nextTimer: TimerId

    ghost var history: map<UserId, seq<Mark>>
    ghost var excused: set<UserId>

    ghost predicate Valid()
      reads this
    {
      TimersOk(layerTimers, armed, nextTimer)
    }

    ghost function Abs(): Engine
      reads this
    {
      Engine(bound, stats, hiddenUsers, suspended, PendingOf(layerTimers, armed), lastEmittedLayer, knownPeers, history, excused)
    }

    constructor ()
      ensures Valid() && Abs() == IDLE
    {
      stats, hiddenUsers, suspended, layerTimers, lastEmittedLayer := map[], {}, false, map[], map[];
      knownPeers, bound, armed, nextTimer, history, excused := {}, false, map[], 0, map[], {};
    }

    /** Re-arms the user's debounce timer; an earlier timer is cancelled. */
    method ArmTimer(u: UserId, level: Level)
      requires Valid()
      modifies this`layerTimers, this`armed, this`nextTimer, this`excused
      ensures Valid()
      ensures Abs() == old(Abs()).(pending := old(Abs()).pending[u := level], excused := old(Abs()).excused - {u})
    {
      TimerReplaced(layerTimers, armed, nextTimer, u, level);
      hide TimersOk, PendingOf;
      if u in layerTimers {
        armed := armed - {layerTimers[u]};
      } else {
        assert armed - {} == armed;
      }
      armed := armed[nextTimer := Armed(u, level)];
      layerTimers := layerTimers[u := nextTimer];
      nextTimer := nextTimer + 1;
      excused := excused - {u};
    }

    /** The debounced scheduler of one user's preferred layer. */
    method ScheduleLayerSwitch(u: UserId)
      requires Valid()
      modifies this`layerTimers, this`armed, this`nextTimer, this`excused
      ensures Valid() && Abs() == Schedule(old(Abs()), {u})
      ensures Abs().pending == if !bound || u !in stats || AtItsLayer(old(Abs()), u) then old(Abs()).pending
                               else old(Abs()).pending[u := stats[u]]
    {
      ScheduleOne(Abs(), u);
      if u in stats { CurrentExactly(Abs(), u); }
      hide AtItsLayer, TimersOk, PendingOf, Schedule;
      if !bound { return; }
      if u !in stats { return; }
      var effective := if u !in hiddenUsers && !suspended then QualityToSpatialLayer(stats[u]) else 0;
      if u in lastEmittedLayer && lastEmittedLayer[u] == effective { return; }
      ArmTimer(u, stats[u]);
    }

    method ScheduleAll(us: set<UserId>)
      requires Valid()
      modifies this`layerTimers, this`armed, this`nextTimer, this`excused
      ensures Valid() && Abs() == Schedule(old(Abs()), us)
    {
      NothingToDo(Abs());
      assert us - us == {};
      hide Abs, Valid, Schedule;
      var rest := us;
      while rest != {}
        invariant rest <= us
        invariant Valid() && Abs() == Schedule(old(Abs()), us - rest)
      {
        var u :| u in rest;
        ScheduleOneMore(old(Abs()), us - rest, u);
        assert us - (rest - {u}) == (us - rest) + {u};
        ScheduleLayerSwitch(u);
        rest := rest - {u};
      }
      assert us - {} == us;
    }

    /** Cancels the user's debounce timer, if one is armed. */
    method DisarmTimer(u: UserId)
      requires Valid()
      modifies this`layerTimers, this`armed
      ensures Valid() && Abs() == old(Abs()).(pending := old(Abs()).pending - {u})
      ensures layerTimers.Keys == old(layerTimers).Keys - {u}
    {
      if u in layerTimers {
        TimerCleared(layerTimers, armed, nextTimer, u);
        hide TimersOk, PendingOf;
        armed := armed - {layerTimers[u]};
        layerTimers := layerTimers - {u};
      } else {
        assert PendingOf(layerTimers, armed) - {u} == PendingOf(layerTimers, armed);
      }
    }

    method ClearUserLayerState(u: UserId)
      requires Valid()
      modifies this`layerTimers, this`armed, this`lastEmittedLayer, this`history
      ensures Valid() && Abs() == Forget(old(Abs()), {u})
      ensures layerTimers.Keys == old(layerTimers).Keys - {u} && lastEmittedLayer == old(lastEmittedLayer) - {u}
    {
      hide TimersOk, PendingOf, Forget, Past;
      ForgetOne(Abs(), u);
      DisarmTimer(u);
      lastEmittedLayer := lastEmittedLayer - {u};
      history := history[u := Past(history, u) + [Forgot]];
    }

    method ClearUsers(us: set<UserId>)
      requires Valid()
      modifies this`layerTimers, this`armed, this`lastEmittedLayer, this`history
      ensures Valid() && Abs() == Forget(old(Abs()), us)
      ensures layerTimers.Keys == old(layerTimers).Keys - us && lastEmittedLayer == old(lastEmittedLayer) - us
    {
      hide Abs, Valid, Forget;
      NothingToDo(Abs());
      ghost var timed, last := layerTimers.Keys, lastEmittedLayer;
      assert timed - {} == timed && last - {} == last;
      var rest := us;
      assert us - rest == {};
      while rest != {}
        invariant rest <= us
        invariant Valid() && Abs() == Forget(old(Abs()), us - rest)
        invariant layerTimers.Keys == timed - (us - rest)
        invariant lastEmittedLayer == last - (us - rest)
      {
        var u :| u in rest;
        ForgetOneMore(old(Abs()), us - rest, u);
        ghost var done := us - rest;
        assert us - (rest - {u}) == done + {u};
        ClearUserLayerState(u);
        assert timed - done - {u} == timed - (done + {u}) && last - done - {u} == last - (done + {u});
        rest := rest - {u};
      }
      assert us - {} == us;
    }

    /** First the users with a timer and no stats, then those with only a remembered layer. */
    method ClearMissingUserState(present: set<UserId>)
      requires Valid()
      modifies this`layerTimers, this`armed, this`lastEmittedLayer, this`history
      ensures Valid()
      ensures Abs() == Forget(old(Abs()), (old(Abs()).pending.Keys + old(Abs()).last.Keys) - present)
    {
      ghost var e := Abs();
      var withTimer := layerTimers.Keys - present;
      assert withTimer == e.pending.Keys - present;
      ClearUsers(withTimer);
      var withLayer := lastEmittedLayer.Keys - present;
      assert withLayer == e.last.Keys - present - withTimer;
      ForgetMore(e, withTimer, withLayer);
      assert withTimer + withLayer == (e.pending.Keys + e.last.Keys) - present;
      hide Abs, Valid, Forget;
      ClearUsers(withLayer);
    }

    /** The stats subscription: new stats, forget the gone, reschedule the rest. */
    method OnQualityStats(report: map<UserId, Level>)
      requires Valid() && bound
      modifies this
      ensures Valid() && Abs() == Report(old(Abs()), report)
    {
      stats := report;
      ClearMissingUserState(report.Keys);
      knownPeers := knownPeers + report.Keys;
      hide TimersOk, PendingOf;
      ScheduleAll(report.Keys);
    }

    method SetVisibility(u: UserId, visible: bool)
      requires Valid()
      modifies this
      ensures Valid() && Abs() == M.SetVisibility(old(Abs()), u, visible)
    {
      if (u !in hiddenUsers) == visible { return; }
      hiddenUsers := if visible then hiddenUsers - {u} else hiddenUsers + {u};
      hide TimersOk, PendingOf, Schedule;
      ScheduleLayerSwitch(u);
    }

    method SetSuspended(on: bool)
      requires Valid()
      modifies this
      ensures Valid() && Abs() == M.SetSuspended(old(Abs()), on)
    {
      if suspended == on { return; }
      suspended := on;
      hide TimersOk, PendingOf, Schedule;
      ScheduleAll(knownPeers);
    }

    method OnParticipantLeft(u: UserId)
      requires Valid()
      modifies this
      ensures Valid() && Abs() == ParticipantLeft(old(Abs()), u)
    {
      if !bound { return; }
      ClearUserLayerState(u);
      hide TimersOk, PendingOf, Forget;
      excused := excused + {u};
    }

    /** A debounce timer fires. `consumer` is the user's camera consumer at that moment, if any. */
    method TimerFires(t: TimerId, consumer: Option<ConsumerId>) returns (request: Option<LayerRequest>)
      requires Valid() && t in armed
      modifies this
      ensures old(armed)[t].user in old(Abs()).pending
      ensures Valid() && Abs() == Fire(old(Abs()), old(armed)[t].user, consumer.Some?)
      ensures var Armed(u, captured) := old(armed)[t];
              var asked := if u in stats then stats[u] else captured;
              var shown := u !in hiddenUsers && !suspended;
              && (request.Some? <==>
                    consumer.Some? && !(u in old(lastEmittedLayer) && LayerFor(asked, shown, old(lastEmittedLayer)[u])))
              && (request.Some? ==>
                    request.value.consumer == consumer.value && LayerFor(asked, shown, request.value.layer))
    {
      request := None;
      var Armed(u, captured) := armed[t];
      TimerArmed(layerTimers, armed, nextTimer, t);
      ghost var asked, shown := if u in stats then stats[u] else captured, u !in hiddenUsers && !suspended;
      forall l ensures LayerFor(asked, shown, l) <==> l == if shown then QualityToSpatialLayer(asked) else 0 { LayerExactly(asked, shown, l); }
      hide TimersOk, PendingOf, Past, LayerFor, QualityToSpatialLayer;
      DisarmTimer(u);
      var layer := if u !in hiddenUsers && !suspended
                   then QualityToSpatialLayer(if u in stats then stats[u] else captured) else 0;
      if consumer.None? {
        lastEmittedLayer := lastEmittedLayer - {u};
        history := history[u := Past(history, u) + [Forgot]];
        excused := excused + {u};
        return;
      }
      if u !in lastEmittedLayer || lastEmittedLayer[u] != layer {
        request := Some(LayerRequest(consumer.value, layer));
        lastEmittedLayer := lastEmittedLayer[u := layer];
        history := history[u := Past(history, u) + [Sent(layer)]];
      }
    }

    method Reset()
      requires Valid()
      modifies this`stats, this`hiddenUsers, this`suspended, this`knownPeers, this`excused
      ensures Valid() && Abs() == old(Abs()).(stats := map[], hidden := {}, suspended := false, known := {}, excused := {})
    {
      hide TimersOk, PendingOf;
      stats, hiddenUsers, suspended, knownPeers, excused := map[], {}, false, {}, {};
    }

    method Unbind()
      requires Valid()
      modifies this
      ensures Valid() && Abs() == M.Unbind(old(Abs()))
    {
      hide TimersOk, PendingOf, Forget, M.Unbind;
      if !bound {
        UnboundAlready(Abs());
        return;
      }
      UnboundFirst(Abs());
      bound := false;
      hide Valid;
      ClearAll();
      Reset();
    }

    method ClearAll()
      requires Valid()
      modifies this`layerTimers, this`armed, this`lastEmittedLayer, this`history
      ensures Valid() && Abs() == Forget(old(Abs()), old(Abs()).pending.Keys + old(Abs()).last.Keys)
    {
      ghost var e := Abs();
      ghost var us := layerTimers.Keys + lastEmittedLayer.Keys;
      assert us == e.pending.Keys + e.last.Keys;
      history := Forget(e, us).history;
      layerTimers, armed, lastEmittedLayer := map[], map[], map[];
      assert e.pending - us == map[] && e.last - us == map[];
    }

    method Bind()
      requires Valid()
      modifies this
      ensures Valid() && Abs() == M.Bind(old(Abs()))
    {
      hide M.Unbind;
      Unbind();
      bound := true;
    }
  }

  lemma ForgetMore(e: Engine, us: set<UserId>, vs: set<UserId>)
    requires us !! vs
    ensures Forget(Forget(e, us), vs) == Forget(e, us + vs)
  {
    var one, two := Forget(Forget(e, us), vs), Forget(e, us + vs);
    assert one.pending == two.pending && one.last == two.last;
    assert one.history.Keys == two.history.Keys;
    forall v | v in one.history ensures one.history[v] == two.history[v] {}
  }
}
