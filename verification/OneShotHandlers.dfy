/**
 The one-shot handler maps of room presence: peer-detach handlers by socket and room-closed handlers
 by room. A map entry is a set object shared with the unsubscribe closures of its members, so the set
 is named by a generation; firing forgets the entry first, and the closures keep the old set. While a
 set is being iterated its handlers may unsubscribe others and register anew.
 */
module OneShotHandlers {
  import opened Common

  type Subject = nat
  type Handler = nat
  type Generation = nat

  /** `firing` holds the sets being iterated with the handlers visited so far; `log` lists the calls, each with its set. */
  datatype State = State(
    current: map<Subject, Generation>, sets: seq<set<Handler>>, removed: set<(Generation, Handler)>,
    firing: map<Generation, set<Handler>>, log: seq<(Generation, Handler)>)

  const NONE := State(map[], [], {}, map[], [])

  datatype Event =
    | Register(subject: Subject, handler: Handler)
    | Unsubscribe(generation: Generation, handler: Handler)
    | Notify(subject: Subject)
    | Call(generation: Generation, handler: Handler)
    | Finish(generation: Generation)

  /** An iteration visits what is still in the set and was not visited, and ends when nothing is left. */
  predicate Possible(s: State, e: Event) {
    match e
    case Register(_, _) => true
    case Unsubscribe(g, _) => g < |s.sets|
    case Notify(_) => true
    case Call(g, h) => g in s.firing && g < |s.sets| && h in s.sets[g] && h !in s.firing[g]
    case Finish(g) => g in s.firing && g < |s.sets| && s.sets[g] <= s.firing[g]
  }

  function Step(s: State, e: Event): State
    requires Possible(s, e)
  {
    match e
    case Register(subject, h) =>
      if subject in s.current && s.current[subject] < |s.sets| then
        var g := s.current[subject];
        s.(sets := s.sets[g := s.sets[g] + {h}], removed := s.removed - {(g, h)})
      else s.(current := s.current[subject := |s.sets|], sets := s.sets + [{h}])
    case Unsubscribe(g, h) => s.(sets := s.sets[g := s.sets[g] - {h}], removed := s.removed + {(g, h)})
    case Notify(subject) =>
      if subject !in s.current then s
      else s.(current := s.current - {subject}, firing := s.firing[s.current[subject] := {}])
    case Call(g, h) => s.(firing := s.firing[g := s.firing[g] + {h}], log := s.log + [(g, h)])
    case Finish(g) => s.(firing := s.firing - {g})
  }

  ghost predicate PossibleRun(s: State, es: seq<Event>)
    decreases |es|
  {
    es == [] || (Possible(s, es[0]) && PossibleRun(Step(s, es[0]), es[1..]))
  }

  ghost function Run(s: State, es: seq<Event>): State
    requires PossibleRun(s, es)
    decreases |es|
  {
    if es == [] then s else Run(Step(s, es[0]), es[1..])
  }

  ghost predicate Waiting(s: State, g: Generation) { exists k :: k in s.current && s.current[k] == g }

  /** A set whose notification is over. */
  ghost predicate Finished(s: State, g: Generation) { g < |s.sets| && !Waiting(s, g) && g !in s.firing }

  ghost predicate Sound(s: State) {
    && (forall k | k in s.current :: s.current[k] < |s.sets|)
    && (forall j, k | j in s.current && k in s.current && s.current[j] == s.current[k] :: j == k)
    && (forall g | g in s.firing :: g < |s.sets| && !Waiting(s, g))
    && (forall x | x in s.log :: x.0 < |s.sets| && !Waiting(s, x.0) && (x.0 in s.firing ==> x.1 in s.firing[x.0]))
    && (forall g, h | g in s.firing && h in s.firing[g] :: (g, h) in s.log)
    && (forall g: Generation, h | Finished(s, g) && h in s.sets[g] :: (g, h) in s.log)
    && Distinct(s.log)
    && (forall x | x in s.removed :: x.0 < |s.sets| && x.1 !in s.sets[x.0])
  }

  lemma RegisterSound(s: State, subject: Subject, h: Handler)
    requires Sound(s)
    ensures Sound(Step(s, Register(subject, h)))
  {
    if subject in s.current { AddedSound(s, subject, h); } else { OpenedSound(s, subject, h); }
  }

  lemma AddedSound(s: State, subject: Subject, h: Handler)
    requires Sound(s) && subject in s.current
    ensures Sound(Step(s, Register(subject, h)))
  {
    var t := Step(s, Register(subject, h));
    assert forall g: Generation :: Waiting(t, g) == Waiting(s, g);
    assert Waiting(s, s.current[subject]);
    hide Distinct, Waiting;
  }

  lemma OpenedSound(s: State, subject: Subject, h: Handler)
    requires Sound(s) && subject !in s.current
    ensures Sound(Step(s, Register(subject, h)))
  {
    var t, n := Step(s, Register(subject, h)), |s.sets|;
    assert t.current == s.current[subject := n] && t.sets == s.sets + [{h}]
      && t.firing == s.firing && t.log == s.log && t.removed == s.removed;
    forall g: Generation ensures Waiting(t, g) <==> Waiting(s, g) || g == n { NewWaiting(s, subject, h, g); }
    hide Waiting, Step, Distinct;
    forall g: Generation | Finished(t, g) ensures Finished(s, g) && t.sets[g] == s.sets[g] {}
  }

  lemma NewWaiting(s: State, subject: Subject, h: Handler, g: Generation)
    requires Sound(s) && subject !in s.current
    ensures Waiting(Step(s, Register(subject, h)), g) <==> Waiting(s, g) || g == |s.sets|
  {
    var t := Step(s, Register(subject, h));
    assert t.current[subject] == |s.sets|;
    if Waiting(s, g) {
      var k :| k in s.current && s.current[k] == g;
      assert k in t.current && t.current[k] == g;
    }
  }

  lemma UnsubscribeSound(s: State, g: Generation, h: Handler)
    requires Sound(s) && g < |s.sets|
    ensures Sound(Step(s, Unsubscribe(g, h)))
  {
    var t := Step(s, Unsubscribe(g, h));
    assert forall q: Generation :: Waiting(t, q) == Waiting(s, q);
    hide Waiting;
  }

  lemma NotifyWaiting(s: State, subject: Subject, q: Generation)
    requires Sound(s) && subject in s.current
    ensures Waiting(Step(s, Notify(subject)), q) <==> Waiting(s, q) && q != s.current[subject]
    ensures Waiting(s, s.current[subject])
  {
    var t := Step(s, Notify(subject));
    if Waiting(s, q) && q != s.current[subject] {
      var k :| k in s.current && s.current[k] == q;
      assert k in t.current && t.current[k] == q;
    }
  }

  lemma NotifySound(s: State, subject: Subject)
    requires Sound(s)
    ensures Sound(Step(s, Notify(subject)))
  {
    if subject in s.current {
      var t, g := Step(s, Notify(subject)), s.current[subject];
      forall q: Generation ensures Waiting(t, q) <==> Waiting(s, q) && q != g { NotifyWaiting(s, subject, q); }
      assert Waiting(s, g);
      assert t.current == s.current - {subject} && t.firing == s.firing[g := {}]
        && t.sets == s.sets && t.log == s.log && t.removed == s.removed;
      hide Waiting, Step, Distinct;
    }
  }

  lemma CallSound(s: State, g: Generation, h: Handler)
    requires Sound(s) && Possible(s, Call(g, h))
    ensures Sound(Step(s, Call(g, h)))
  {
    var t := Step(s, Call(g, h));
    assert forall q: Generation :: Waiting(t, q) == Waiting(s, q);
    assert (g, h) !in s.log;
    hide Waiting;
    assert forall q: Generation :: Finished(t, q) == Finished(s, q);
    forall q, k | q in t.firing && k in t.firing[q] ensures (q, k) in t.log {
      if q == g && k == h { assert t.log[|s.log|] == (g, h); } else { assert (q, k) in s.log; }
    }
  }

  lemma FinishSound(s: State, g: Generation)
    requires Sound(s) && Possible(s, Finish(g))
    ensures Sound(Step(s, Finish(g)))
  {
    var t := Step(s, Finish(g));
    assert forall q: Generation :: Waiting(t, q) == Waiting(s, q);
    hide Waiting;
    assert forall q: Generation | Finished(t, q) && q != g :: Finished(s, q);
  }

  lemma StepSound(s: State, e: Event)
    requires Sound(s) && Possible(s, e)
    ensures Sound(Step(s, e))
  {
    hide Step, Sound;
    match e
    case Register(subject, h) => RegisterSound(s, subject, h);
    case Unsubscribe(g, h) => UnsubscribeSound(s, g, h);
    case Notify(subject) => NotifySound(s, subject);
    case Call(g, h) => CallSound(s, g, h);
    case Finish(g) => FinishSound(s, g);
  }

  /**
   In any run, whatever handlers do while being called: no handler is called twice for one registration
   set, and once the notification is over every handler still in the set has been called.
   */
  lemma {:induction false} FiredOnce(s: State, es: seq<Event>)
    requires Sound(s) && PossibleRun(s, es)
    ensures Sound(Run(s, es)) && Distinct(Run(s, es).log) && s.log <= Run(s, es).log
    ensures var t := Run(s, es); forall g: Generation, h | Finished(t, g) && h in t.sets[g] :: (g, h) in t.log
    decreases |es|
  {
    if es != [] {
      assert s.log <= Step(s, es[0]).log;
      StepSound(s, es[0]);
      hide Step, Sound, Possible;
      FiredOnce(Step(s, es[0]), es[1..]);
    }
  }

  lemma NoneSound()
    ensures Sound(NONE)
  {
  }

  /** The handler is in the set. */
  ghost predicate Has(s: State, g: Generation, h: Handler) { g < |s.sets| && h in s.sets[g] }

  /** The set a registration for the subject goes to: the one it waits in, or a new one. */
  function Bucket(s: State, subject: Subject): Generation {
    if subject in s.current then s.current[subject] else |s.sets|
  }

  /**
   A set gains a handler only by a registration for its subject while it waits and loses one only by an
   unsubscription; a subject's set is the one it was first given since it was last notified; calls happen
   only while a set is iterated, and are remembered.
   */
  lemma StepExactly(s: State, e: Event)
    requires Sound(s) && Possible(s, e)
    ensures var t := Step(s, e);
            && (forall g: Generation, h :: Has(t, g, h) <==>
                  (e.Register? && g == Bucket(s, e.subject) && h == e.handler) || (Has(s, g, h) && e != Unsubscribe(g, h)))
            && (forall k :: k in t.current <==> (e.Register? && k == e.subject) || (k in s.current && e != Notify(k)))
            && (forall k | k in t.current :: t.current[k] == Bucket(s, k))
            && |t.sets| == |s.sets| + (if e.Register? && e.subject !in s.current then 1 else 0)
            && (forall g, h :: (g, h) in t.removed <==>
                  e == Unsubscribe(g, h) || ((g, h) in s.removed && !(e.Register? && g == Bucket(s, e.subject) && h == e.handler)))
            && (forall g :: g in t.firing <==>
                  (e.Notify? && e.subject in s.current && g == s.current[e.subject]) || (g in s.firing && e != Finish(g)))
            && (forall g, h | g in t.firing :: h in t.firing[g] <==> e == Call(g, h) || (g in s.firing && h in s.firing[g]))
            && t.log == s.log + (if e.Call? then [(e.generation, e.handler)] else [])
  {
    match e
    case Register(subject, h) => RegisterExactly(s, subject, h);
    case Notify(subject) => if subject in s.current { assert Waiting(s, s.current[subject]); }
    case _ =>
  }

  lemma RegisterExactly(s: State, subject: Subject, handler: Handler)
    requires Sound(s)
    ensures var t := Step(s, Register(subject, handler));
            && (forall g: Generation, h :: Has(t, g, h) <==> (g == Bucket(s, subject) && h == handler) || Has(s, g, h))
            && (forall k :: k in t.current <==> k == subject || k in s.current)
            && (forall k | k in t.current :: t.current[k] == Bucket(s, k))
            && |t.sets| == |s.sets| + (if subject !in s.current then 1 else 0)
            && (forall g, h :: (g, h) in t.removed <==> (g, h) in s.removed && !(g == Bucket(s, subject) && h == handler))
            && t.firing == s.firing && t.log == s.log
  {
  }

  /**
   A handler unsubscribed and not registered again is not called, not even by the iteration under way, which
   ends exactly when every handler still in its set has been called.
   */
  lemma CallExactly(s: State, g: Generation, h: Handler)
    requires Sound(s) && g in s.firing
    ensures Possible(s, Call(g, h)) <==> h in s.sets[g] && (g, h) !in s.log
    ensures Possible(s, Call(g, h)) ==> (g, h) !in s.removed
    ensures Possible(s, Finish(g)) <==> forall k | k in s.sets[g] :: (g, k) in s.log
  {
  }

  /** The entry is gone when the first handler runs, so a second notification calls nobody. */
  lemma NotifyExactly(s: State, subject: Subject)
    requires Sound(s)
    ensures var t := Step(s, Notify(subject));
            && subject !in t.current && t.log == s.log && Step(t, Notify(subject)) == t
            && (subject in s.current ==> forall h :: Possible(t, Call(s.current[subject], h)) <==> h in s.sets[s.current[subject]])
  {
  }

  /** Unsubscribing through a closure of a set that was already fired leaves every registration as it is. */
  lemma StaleUnsubscribe(s: State, g: Generation, h: Handler, subject: Subject)
    requires Sound(s) && g < |s.sets| && subject in s.current
    requires g in s.firing || exists x :: x in s.log && x.0 == g
    ensures var t := Step(s, Unsubscribe(g, h));
            subject in t.current && t.sets[t.current[subject]] == s.sets[s.current[subject]]
  {
    assert Waiting(s, s.current[subject]);
  }

  lemma {:induction false} RunSnoc(s: State, es: seq<Event>, e: Event)
    requires PossibleRun(s, es) && Possible(Run(s, es), e)
    ensures PossibleRun(s, es + [e]) && Run(s, es + [e]) == Step(Run(s, es), e)
    decreases |es|
  {
    if es == [] {
      assert es + [e] == [e] && Run(Step(s, e), []) == Step(s, e);
    } else {
      RunSnoc(Step(s, es[0]), es[1..], e);
      assert (es + [e])[1..] == es[1..] + [e];
    }
  }

  /** What a handler may do to the map while it is called. */
  predicate Allowed(e: Event, sets: nat) { e.Register? || (e.Unsubscribe? && e.generation < sets) }

  /** No set being iterated gains a handler. */
  ghost predicate KeptFiring(s: State, t: State) {
    && t.firing == s.firing && t.log == s.log && |t.sets| >= |s.sets|
    && forall g | g in s.firing :: g < |s.sets| && t.sets[g] <= s.sets[g]
  }

  lemma AllowedKeepsFiring(s: State, e: Event)
    requires Sound(s) && Allowed(e, |s.sets|)
    ensures KeptFiring(s, Step(s, e))
  {
    if e.Register? && e.subject in s.current { assert Waiting(s, s.current[e.subject]); }
  }

  lemma KeptFiringStays(s: State, t: State, u: State)
    ensures KeptFiring(s, t) && KeptFiring(t, u) ==> KeptFiring(s, u)
    ensures Sound(s) ==> KeptFiring(s, s)
  {
  }

  lemma KeptFiringFields(s: State, t: State, g: Generation)
    requires KeptFiring(s, t) && g in s.firing
    ensures g < |s.sets| <= |t.sets| && t.firing == s.firing && t.sets[g] <= s.sets[g]
  {
  }

  lemma CallFields(s: State, g: Generation, h: Handler)
    requires Possible(s, Call(g, h))
    ensures var t := Step(s, Call(g, h)); t.sets == s.sets && g in t.firing && t.firing[g] == s.firing[g] + {h}
  {
  }

  lemma SmallerSet(a: set<Handler>, b: set<Handler>, h: Handler)
    requires a <= b - {h} && h in b
    ensures |a| < |b|
  {
    assert |b - {h}| == |b| - 1;
    SubsetSize(a, b - {h});
  }

  lemma {:induction false} SubsetSize(a: set<Handler>, b: set<Handler>)
    requires a <= b
    ensures |a| <= |b|
  {
    assert b == a + (b - a);
  }

  /** The calls of one notification, each followed by what its handler does. */
  function Visits(g: Generation, order: seq<Handler>, actions: Handler -> seq<Event>): seq<Event> {
    if order == [] then []
    else Visits(g, order[..|order| - 1], actions) + [Call(g, order[|order| - 1])] + actions(order[|order| - 1])
  }

  lemma NoVisits(es: seq<Event>, g: Generation, actions: Handler -> seq<Event>)
    ensures es + Visits(g, [], actions) == es
  {
  }

  lemma FirstStep(s: State, e: Event)
    requires Possible(s, e)
    ensures PossibleRun(s, [e]) && Run(s, [e]) == Step(s, e)
  {
    assert [] + [e] == [e];
    RunSnoc(s, [], e);
  }

  lemma VisitsSnoc(es: seq<Event>, g: Generation, order: seq<Handler>, h: Handler, actions: Handler -> seq<Event>)
    ensures es + Visits(g, order + [h], actions) == es + Visits(g, order, actions) + [Call(g, h)] + actions(h)
  {
    assert (order + [h])[..|order|] == order;
  }

  // ----- The maps -----

  class HandlerMap {
    var handlers: map<Subject, Generation>
    var sets: seq<set<Handler>>
    var calls: seq<(Generation, Handler)>
    ghost var removed: set<(Generation, Handler)>
    ghost var firing: map<Generation, set<Handler>>

    ghost function Abs(): State
      reads this
    {
      State(handlers, sets, removed, firing, calls)
    }

    ghost predicate Valid()
      reads this
    {
      Sound(Abs())
    }

    constructor ()
      ensures Valid() && Abs() == NONE
    {
      handlers, sets, removed, firing, calls := map[], [], {}, map[], [];
      new;
      NoneSound();
    }

    /** Adds to the subject's set, made on demand; the result names the set the unsubscribe closure keeps. */
    method On(subject: Subject, h: Handler) returns (bucket: Generation)
      requires Valid()
      modifies this`handlers, this`sets, this`removed
      ensures Valid() && Abs() == Step(old(Abs()), Register(subject, h))
      ensures subject in handlers && bucket == handlers[subject] && bucket < |sets| && h in sets[bucket]
    {
      StepSound(Abs(), Register(subject, h));
      if subject !in handlers {
        handlers := handlers[subject := |sets|];
        sets := sets + [{}];
        bucket := |sets| - 1;
        sets := sets[bucket := sets[bucket] + {h}];
        assert {} + {h} == {h};
        assert sets == old(sets) + [{h}];
      } else {
        bucket := handlers[subject];
        sets := sets[bucket := sets[bucket] + {h}];
        removed := removed - {(bucket, h)};
      }
    }

    method Unsubscribe(bucket: Generation, h: Handler)
      requires Valid() && bucket < |sets|
      modifies this`sets, this`removed
      ensures Valid() && Abs() == Step(old(Abs()), Event.Unsubscribe(bucket, h))
    {
      StepSound(Abs(), Event.Unsubscribe(bucket, h));
      sets := sets[bucket := sets[bucket] - {h}];
      removed := removed + {(bucket, h)};
    }

    /** What one handler does to the map while it is called. */
    method Act(actions: seq<Event>, ghost before: State, ghost es: seq<Event>)
      requires Valid() && PossibleRun(before, es) && Run(before, es) == Abs()
      requires forall e | e in actions :: Allowed(e, |sets|)
      modifies this`handlers, this`sets, this`removed
      ensures Valid() && PossibleRun(before, es + actions) && Run(before, es + actions) == Abs()
      ensures KeptFiring(old(Abs()), Abs())
    {
      hide Sound, PossibleRun, Run, KeptFiring;
      ghost var s := Abs();
      KeptFiringStays(s, s, s);
      assert es + actions[..0] == es;
      for i := 0 to |actions|
        invariant Valid() && PossibleRun(before, es + actions[..i]) && Run(before, es + actions[..i]) == Abs()
        invariant |sets| >= |old(sets)| && KeptFiring(s, Abs())
      {
        ghost var t := Abs();
        var e := actions[i];
        assert e in actions && Allowed(e, |sets|);
        AllowedKeepsFiring(t, e);
        KeptFiringStays(s, t, Step(t, e));
        RunSnoc(before, es + actions[..i], e);
        assert es + actions[..i + 1] == es + actions[..i] + [e];
        if e.Register? {
          var bucket := On(e.subject, e.handler);
        } else {
          Unsubscribe(e.generation, e.handler);
        }
      }
      assert actions[..|actions|] == actions;
    }

    /** The entry is forgotten before the first call. */
    method Forget(subject: Subject) returns (bucket: Generation)
      requires Valid() && subject in handlers
      modifies this`handlers, this`firing
      ensures Valid() && bucket == old(handlers[subject]) && Abs() == Step(old(Abs()), Event.Notify(subject))
      ensures bucket in firing && firing[bucket] == {} && bucket < |sets|
    {
      StepSound(Abs(), Event.Notify(subject));
      bucket := handlers[subject];
      handlers := handlers - {subject};
      firing := firing[bucket := {}];
    }

    method CallOne(bucket: Generation, h: Handler)
      requires Valid() && Possible(Abs(), Event.Call(bucket, h))
      modifies this`calls, this`firing
      ensures Valid() && Abs() == Step(old(Abs()), Event.Call(bucket, h))
    {
      StepSound(Abs(), Event.Call(bucket, h));
      firing := firing[bucket := firing[bucket] + {h}];
      calls := calls + [(bucket, h)];
    }

    /** One handler is called and acts on the map. */
    method VisitOne(g: Generation, h: Handler, actions: seq<Event>, ghost before: State, ghost es: seq<Event>)
      requires Valid() && PossibleRun(before, es) && Run(before, es) == Abs()
      requires Possible(Abs(), Event.Call(g, h)) && forall e | e in actions :: Allowed(e, |sets|)
      modifies this
      ensures Valid() && PossibleRun(before, es + [Event.Call(g, h)] + actions)
      ensures Run(before, es + [Event.Call(g, h)] + actions) == Abs()
      ensures g in firing && firing[g] == old(firing[g]) + {h} && g < |sets| && |sets| >= |old(sets)| && sets[g] <= old(sets[g])
    {
      hide Sound, PossibleRun, Run, KeptFiring, Step;
      RunSnoc(before, es, Event.Call(g, h));
      CallFields(Abs(), g, h);
      CallOne(g, h);
      ghost var t := Abs();
      Act(actions, before, es + [Event.Call(g, h)]);
      KeptFiringFields(t, Abs(), g);
    }

    /** The loop over the set: handlers that are still in it and were not visited, until none is left. */
    method VisitAll(g: Generation, actions: Handler -> seq<Event>, ghost before: State, ghost es: seq<Event>)
      returns (ghost order: seq<Handler>)
      requires Valid() && PossibleRun(before, es) && Run(before, es) == Abs() && g in firing && firing[g] == {} && g < |sets|
      requires forall h, e | e in actions(h) :: Allowed(e, |sets|)
      modifies this
      ensures Valid() && PossibleRun(before, es + Visits(g, order, actions)) && Run(before, es + Visits(g, order, actions)) == Abs()
      ensures Possible(Abs(), Finish(g))
    {
      hide Sound, PossibleRun, Run, Visits;
      order := [];
      NoVisits(es, g, actions);
      var visited: set<Handler> := {};
      while sets[g] - visited != {}
        invariant Valid() && g in firing && g < |sets| && firing[g] == visited && |sets| >= |old(sets)|
        invariant PossibleRun(before, es + Visits(g, order, actions)) && Run(before, es + Visits(g, order, actions)) == Abs()
        decreases |sets[g] - visited|
      {
        var h :| h in sets[g] - visited;
        ghost var left := sets[g] - visited;
        forall e | e in actions(h) ensures Allowed(e, |sets|) { assert Allowed(e, |old(sets)|); }
        VisitOne(g, h, actions(h), before, es + Visits(g, order, actions));
        visited := visited + {h};
        VisitsSnoc(es, g, order, h, actions);
        order := order + [h];
        SmallerSet(sets[g] - visited, left, h);
      }
      assert sets[g] <= sets[g] - visited + visited;
    }

    /** The iteration is over. */
    ghost method Close(g: Generation)
      requires Valid() && Possible(Abs(), Finish(g))
      modifies this`firing
      ensures Valid() && Abs() == Step(old(Abs()), Finish(g))
      ensures g < |sets| && g !in firing && forall h | h in sets[g] :: (g, h) in calls
    {
      StepSound(Abs(), Finish(g));
      firing := firing - {g};
    }

    /**
     Forgets the entry, then calls the handlers of its set, each acting on the map as `actions` says, until
     none is left unvisited. `order` is the order of the calls.
     */
    method Notify(subject: Subject, actions: Handler -> seq<Event>) returns (ghost order: seq<Handler>)
      requires Valid() && forall h, e | e in actions(h) :: Allowed(e, |sets|)
      modifies this
      ensures Valid()
      ensures subject !in old(handlers) ==> Abs() == old(Abs())
      ensures subject in old(handlers) ==>
                var g := old(handlers[subject]);
                var es := [Event.Notify(subject)] + Visits(g, order, actions) + [Finish(g)];
                && PossibleRun(old(Abs()), es) && Abs() == Run(old(Abs()), es)
                && g < |sets| && g !in firing && forall h | h in sets[g] :: (g, h) in calls
    {
      order := [];
      if subject !in handlers { return; }
      ghost var s := Abs();
      ghost var es := [Event.Notify(subject)];
      FirstStep(s, Event.Notify(subject));
      hide Sound, PossibleRun, Run, Visits, Step;
      var g := Forget(subject);
      order := VisitAll(g, actions, s, es);
      RunSnoc(s, es + Visits(g, order, actions), Finish(g));
      Close(g);
    }
  }
}
