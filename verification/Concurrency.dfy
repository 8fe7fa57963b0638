/**
 The client's two concurrency helpers over a caller-owned pending map: withoutConcurrency, a
 one-attempt client of PromiseChains, and singleFlight, which shares the run in flight.
 */
module Concurrency {
  import opened Common
  import opened PromiseChains

  type Tag = PromiseChains.Key

  /** Serialized runs per tag. The caller must not call back into the same tag synchronously. */
  class SerializedRuns {
    var pending: map<Tag, JobId>
    var runs: seq<Job>
    ghost var log: seq<Entry>

    ghost function Abs(): Chains
      reads this
    {
      Chains(runs, pending, log)
    }

    ghost predicate Valid()
      reads this
    {
      Sound(Abs()) && LogOrdered(Abs()) && BlocksOk(EXCLUSIVE_POLICY, Abs())
    }

    constructor ()
      ensures Valid() && Abs() == NONE
    {
      pending, runs, log := map[], [], [];
      new;
      NoneSafe(EXCLUSIVE_POLICY);
    }

    lemma Keeps(e: Event)
      requires Valid() && Possible(Abs(), e)
      ensures var c := Step(EXCLUSIVE_POLICY, Abs(), e); Sound(c) && LogOrdered(c) && BlocksOk(EXCLUSIVE_POLICY, c)
    {
      StepSound(EXCLUSIVE_POLICY, Abs(), e);
      StepLog(EXCLUSIVE_POLICY, Abs(), e);
      StepBlocks(EXCLUSIVE_POLICY, Abs(), e);
    }

    /** Starts the run at once if nothing with the tag is pending, else queues it behind the last one. */
    method WithoutConcurrency(tag: Tag) returns (id: JobId, startedNow: bool)
      requires Valid()
      modifies this
      ensures Valid() && id == |old(runs)|
      ensures Abs() == Step(EXCLUSIVE_POLICY, old(Abs()), Enqueue(tag))
      ensures startedNow <==> tag !in old(pending)
      ensures startedNow ==> forall i | 0 <= i < |old(runs)| && old(runs)[i].key == tag :: old(runs)[i].phase.Settled?
    {
      Keeps(Enqueue(tag));
      assert tag !in pending ==> forall i | 0 <= i < |runs| && runs[i].key == tag :: runs[i].phase.Settled?;
      hide Sound, LogOrdered, BlocksOk;
      id := |runs|;
      startedNow := tag !in pending;
      runs := runs + [Job(tag, if startedNow then Running(0) else Waiting(Some(pending[tag])))];
      pending := pending[tag := id];
    }

    /** The predecessor settled, resolved or rejected alike. */
    method PreviousSettled(id: JobId)
      requires Valid() && Possible(Abs(), Start(id))
      modifies this
      ensures Valid() && Abs() == Step(EXCLUSIVE_POLICY, old(Abs()), Start(id))
    {
      Keeps(Start(id));
      hide Sound, LogOrdered, BlocksOk;
      runs := runs[id := runs[id].(phase := Running(0))];
    }

    method RunSettled(id: JobId, outcome: Outcome)
      requires Valid() && Possible(Abs(), Attempt(id, outcome))
      modifies this
      ensures Valid() && Abs() == Step(EXCLUSIVE_POLICY, old(Abs()), Attempt(id, outcome))
      ensures runs[id].phase.Settled?
    {
      Keeps(Attempt(id, outcome));
      hide Sound, LogOrdered, BlocksOk;
      runs := runs[id := runs[id].(phase := Settled)];
      log := log + [Entry(id, outcome)];
    }

    method ForgetIfLast(id: JobId)
      requires Valid() && Possible(Abs(), CleanUp(id))
      modifies this
      ensures Valid() && Abs() == Step(EXCLUSIVE_POLICY, old(Abs()), CleanUp(id))
    {
      Keeps(CleanUp(id));
      hide Sound, LogOrdered, BlocksOk;
      if runs[id].key in pending && pending[runs[id].key] == id {
        pending := pending - {runs[id].key};
      }
    }
  }

  // ----- singleFlight -----

  type RunId = nat

  datatype Flight = Flight(tag: Tag, settled: bool, abandoned: bool)

  /** Runs in start order; `abandoned` marks runs whose map entry was cleared from outside. */
  datatype Flights = Flights(runs: seq<Flight>, pending: map<Tag, RunId>)

  datatype FlightEvent = Call(tag: Tag) | Settle(run: RunId) | CleanUpRun(run: RunId) | ClearAll

  predicate FlightPossible(f: Flights, e: FlightEvent) {
    match e
    case Settle(r) => r < |f.runs| && !f.runs[r].settled
    case CleanUpRun(r) => r < |f.runs| && f.runs[r].settled
    case _ => true
  }

  /** The run a call with this tag gets: the one in flight, or a fresh one. */
  function Joined(f: Flights, tag: Tag): RunId {
    if tag in f.pending then f.pending[tag] else |f.runs|
  }

  function FlightStep(f: Flights, e: FlightEvent): Flights
    requires FlightPossible(f, e)
  {
    match e
    case Call(tag) =>
      if tag in f.pending then f
      else Flights(f.runs + [Flight(tag, false, false)], f.pending[tag := |f.runs|])
    case Settle(r) => f.(runs := f.runs[r := f.runs[r].(settled := true)])
    case CleanUpRun(r) =>
      if f.runs[r].tag in f.pending && f.pending[f.runs[r].tag] == r then f.(pending := f.pending - {f.runs[r].tag}) else f
    case ClearAll =>
      Flights(seq(|f.runs|, i requires 0 <= i < |f.runs| => f.runs[i].(abandoned := true)), map[])
  }

  /** Every run in flight that was not abandoned is the one its tag maps to. */
  ghost predicate Shared(f: Flights) {
    && (forall t | t in f.pending :: f.pending[t] < |f.runs| && f.runs[f.pending[t]].tag == t && !f.runs[f.pending[t]].abandoned)
    && (forall i | 0 <= i < |f.runs| && !f.runs[i].settled && !f.runs[i].abandoned ::
          f.runs[i].tag in f.pending && f.pending[f.runs[i].tag] == i)
  }

  lemma FlightStepShared(f: Flights, e: FlightEvent)
    requires Shared(f) && FlightPossible(f, e)
    ensures Shared(FlightStep(f, e))
  {
  }

  /**
   A call gets the run stored under its tag, or a new one that no earlier call got; a settlement is the
   run's own; a clean-up forgets its own run and no other; a clear forgets all.
   */
  lemma FlightExactly(f: Flights, e: FlightEvent)
    requires Shared(f) && FlightPossible(f, e)
    ensures var g := FlightStep(f, e);
            match e
            case Call(tag) =>
              && tag in g.pending && g.pending[tag] == Joined(f, tag) < |g.runs|
              && (forall t | t != tag :: t in g.pending <==> t in f.pending) && (forall t | t in f.pending :: g.pending[t] == f.pending[t])
              && |g.runs| == |f.runs| + (if tag in f.pending then 0 else 1)
              && (forall i | 0 <= i < |f.runs| :: g.runs[i] == f.runs[i])
              && (tag !in f.pending ==> Joined(f, tag) == |f.runs| && g.runs[|f.runs|] == Flight(tag, false, false))
            case Settle(r) =>
              && |g.runs| == |f.runs| && g.runs[r].settled && g.runs[r].tag == f.runs[r].tag && g.runs[r].abandoned == f.runs[r].abandoned
              && (forall i | 0 <= i < |f.runs| && i != r :: g.runs[i] == f.runs[i]) && g.pending == f.pending
            case CleanUpRun(r) =>
              && g.runs == f.runs && (forall t | t in g.pending :: t in f.pending && g.pending[t] == f.pending[t])
              && (forall t | t in f.pending :: t !in g.pending <==> f.pending[t] == r)
            case ClearAll =>
              && g.pending == map[] && |g.runs| == |f.runs|
              && (forall i | 0 <= i < |f.runs| ::
                    g.runs[i].abandoned && g.runs[i].tag == f.runs[i].tag && g.runs[i].settled == f.runs[i].settled)
  {
  }

  /** Once a run has settled and cleaned up, the next call with its tag starts afresh. */
  lemma FreshAfterSettled(f: Flights, r: RunId)
    requires Shared(f) && FlightPossible(f, Settle(r))
    ensures var g := FlightStep(f, Settle(r));
            && FlightPossible(g, CleanUpRun(r))
            && (f.runs[r].abandoned || f.runs[r].tag !in FlightStep(g, CleanUpRun(r)).pending)
            && (!f.runs[r].abandoned ==> Joined(FlightStep(g, CleanUpRun(r)), f.runs[r].tag) == |f.runs|)
  {
  }

  /** Callers with the same tag share the run in flight. */
  class SharedRuns {
    var pending: map<Tag, RunId>
    var runs: seq<Flight>

    ghost function Abs(): Flights
      reads this
    {
      Flights(runs, pending)
    }

    ghost predicate Valid()
      reads this
    {
      Shared(Abs())
    }

    constructor ()
      ensures Valid() && Abs() == Flights([], map[])
    {
      pending, runs := map[], [];
    }

    /** Joins the run in flight, or starts one. */
    method SingleFlight(tag: Tag) returns (id: RunId)
      requires Valid()
      modifies this
      ensures Valid() && Abs() == FlightStep(old(Abs()), Call(tag))
      ensures id == Joined(old(Abs()), tag) && id < |runs| && runs[id].tag == tag && !runs[id].abandoned
      ensures (exists i | 0 <= i < |old(runs)| ::
                 old(runs)[i].tag == tag && !old(runs)[i].settled && !old(runs)[i].abandoned) ==> |runs| == |old(runs)|
    {
      if tag in pending { return pending[tag]; }
      id := |runs|;
      runs := runs + [Flight(tag, false, false)];
      pending := pending[tag := id];
    }

    /** The shared run resolved or rejected. */
    method RunSettled(id: RunId)
      requires Valid() && FlightPossible(Abs(), Settle(id))
      modifies this
      ensures Valid() && Abs() == FlightStep(old(Abs()), Settle(id))
    {
      runs := runs[id := runs[id].(settled := true)];
    }

    method ForgetIfCurrent(id: RunId)
      requires Valid() && FlightPossible(Abs(), CleanUpRun(id))
      modifies this
      ensures Valid() && Abs() == FlightStep(old(Abs()), CleanUpRun(id))
    {
      if runs[id].tag in pending && pending[runs[id].tag] == id {
        pending := pending - {runs[id].tag};
      }
    }

    /** Lifecycle code clears the map it owns; the runs themselves go on. */
    method Clear()
      requires Valid()
      modifies this
      ensures Valid() && Abs() == FlightStep(old(Abs()), ClearAll)
    {
      runs := seq(|runs|, i requires 0 <= i < |runs| reads this => runs[i].(abandoned := true));
      pending := map[];
    }
  }

  ghost predicate FlightRunPossible(f: Flights, es: seq<FlightEvent>)
    decreases |es|
  {
    es == [] || (FlightPossible(f, es[0]) && FlightRunPossible(FlightStep(f, es[0]), es[1..]))
  }

  ghost function FlightRun(f: Flights, es: seq<FlightEvent>): Flights
    requires FlightRunPossible(f, es)
    decreases |es|
  {
    if es == [] then f else FlightRun(FlightStep(f, es[0]), es[1..])
  }

  /**
   At most one run per tag is in flight at any time, apart from runs abandoned by a clear; a late
   settlement, abandoned or not, never forgets a newer run.
   */
  lemma {:induction false} SingleFlightSafe(f: Flights, es: seq<FlightEvent>)
    requires Shared(f) && FlightRunPossible(f, es)
    ensures var g := FlightRun(f, es);
            && Shared(g)
            && forall i, j | 0 <= i < j < |g.runs| && g.runs[i].tag == g.runs[j].tag ::
                 g.runs[i].settled || g.runs[i].abandoned || g.runs[j].settled || g.runs[j].abandoned
    decreases |es|
  {
    if es != [] {
      FlightStepShared(f, es[0]);
      hide FlightStep;
      SingleFlightSafe(FlightStep(f, es[0]), es[1..]);
    }
  }
}
