/** The per-project webhook delivery queue, as a client of PromiseChains. */
module WebhookQueue {
  import opened Common
  import opened PromiseChains

  type ProjectId = PromiseChains.Key

  class WebhookQueue {
    var tails: map<ProjectId, JobId>
    // Continuations of the promise chains, and what was attempted so far.
    var deliveries: seq<Job>
    ghost var log: seq<Entry>

    ghost function Abs(): Chains
      reads this
    {
      Chains(deliveries, tails, log)
    }

    ghost predicate Valid()
      reads this
    {
      Sound(Abs()) && LogOrdered(Abs()) && BlocksOk(WEBHOOK_POLICY, Abs())
    }

    constructor ()
      ensures Valid() && Abs() == NONE
    {
      tails, deliveries, log := map[], [], [];
      new;
      NoneSafe(WEBHOOK_POLICY);
    }

    lemma Keeps(e: Event)
      requires Valid() && Possible(Abs(), e)
      ensures var c := Step(WEBHOOK_POLICY, Abs(), e); Sound(c) && LogOrdered(c) && BlocksOk(WEBHOOK_POLICY, c)
    {
      StepSound(WEBHOOK_POLICY, Abs(), e);
      StepLog(WEBHOOK_POLICY, Abs(), e);
      StepBlocks(WEBHOOK_POLICY, Abs(), e);
    }

    /** Chains the delivery to the project's tail and becomes the tail. */
    method EnqueueDelivery(project: ProjectId) returns (id: JobId)
      requires Valid()
      modifies this
      ensures Valid() && id == |old(deliveries)|
      ensures Abs() == Step(WEBHOOK_POLICY, old(Abs()), Enqueue(project))
    {
      Keeps(Enqueue(project));
      hide Sound, LogOrdered, BlocksOk;
      id := |deliveries|;
      var previous := if project in tails then Some(tails[project]) else None;
      deliveries := deliveries + [Job(project, Waiting(previous))];
      tails := tails[project := id];
    }

    /** The tail a delivery was chained to has settled: its first attempt is due. */
    method PreviousSettled(id: JobId)
      requires Valid() && Possible(Abs(), Start(id))
      modifies this
      ensures Valid() && Abs() == Step(WEBHOOK_POLICY, old(Abs()), Start(id))
    {
      Keeps(Start(id));
      hide Sound, LogOrdered, BlocksOk;
      deliveries := deliveries[id := deliveries[id].(phase := Running(0))];
    }

    /** One attempt settles: done, given up, or another one after the backoff delay. */
    method AttemptSettled(id: JobId, outcome: Outcome) returns (retryInMs: Option<nat>)
      requires Valid() && Possible(Abs(), Attempt(id, outcome))
      modifies this
      ensures Valid() && Abs() == Step(WEBHOOK_POLICY, old(Abs()), Attempt(id, outcome))
      ensures retryInMs.Some? <==> outcome.Failed? && old(deliveries)[id].phase.attempts < 5
      ensures retryInMs.Some? ==> retryInMs.value == [10000, 20000, 40000, 80000, 160000][old(deliveries)[id].phase.attempts]
    {
      Keeps(Attempt(id, outcome));
      hide Sound, LogOrdered, BlocksOk;
      var n := deliveries[id].phase.attempts;
      if outcome.Failed? && n < |WEBHOOK_RETRY_DELAYS_MS| {
        retryInMs := Some(WEBHOOK_RETRY_DELAYS_MS[n]);
        deliveries := deliveries[id := deliveries[id].(phase := Running(n + 1))];
      } else {
        retryInMs := None;
        deliveries := deliveries[id := deliveries[id].(phase := Settled)];
      }
      log := log + [Entry(id, outcome)];
    }

    /** After settlement the map entry goes, unless a later delivery has replaced it. */
    method TailSettled(id: JobId)
      requires Valid() && Possible(Abs(), CleanUp(id))
      modifies this
      ensures Valid() && Abs() == Step(WEBHOOK_POLICY, old(Abs()), CleanUp(id))
    {
      Keeps(CleanUp(id));
      hide Sound, LogOrdered, BlocksOk;
      var project := deliveries[id].key;
      if project in tails && tails[project] == id {
        tails := tails - {project};
      }
    }

    /** The retry loop of one delivery whose k-th attempt would end as `attempt(k)`. */
    static method RunWithRetries(attempt: nat -> Outcome) returns (outcomes: seq<Outcome>)
      ensures CompleteBlock(WEBHOOK_POLICY, outcomes)
      ensures 1 <= |outcomes| <= 6 && (|outcomes| < 6 ==> !outcomes[|outcomes| - 1].Failed?)
      ensures forall k: nat | k < |outcomes| :: outcomes[k] == attempt(k)
    {
      outcomes := [attempt(0)];
      for i := 0 to |WEBHOOK_RETRY_DELAYS_MS|
        invariant |outcomes| == i + 1
        invariant forall k: nat | k < |outcomes| :: outcomes[k] == attempt(k)
        invariant forall k: nat | k < i :: outcomes[k].Failed?
      {
        if !outcomes[i].Failed? { return; }
        outcomes := outcomes + [attempt(i + 1)];
      }
    }
  }

  /** The attempts of a delivery are determined by how each would end: the loop and the chain agree. */
  lemma BlockUnique(attempt: nat -> Outcome, a: seq<Outcome>, b: seq<Outcome>)
    requires CompleteBlock(WEBHOOK_POLICY, a) && CompleteBlock(WEBHOOK_POLICY, b)
    requires (forall k: nat | k < |a| :: a[k] == attempt(k)) && forall k: nat | k < |b| :: b[k] == attempt(k)
    ensures a == b
  {
    var k := (if |a| < |b| then |a| else |b|) - 1;
    assert a[k] == attempt(k) == b[k];
    assert |a| == |b|;
  }
}
