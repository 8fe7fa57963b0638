/**
 Promise-chain mutexes: a map from key to the tail promise, jobs that start when the previous tail
 has settled, and a clean-up that deletes the map entry if it is still the job's own. The webhook
 queue retries each job up to six times; withoutConcurrency runs each job once and starts the first
 one at once. Events are interleaved arbitrarily.
 */
module PromiseChains {
  import opened Common

  type Key = nat
  type JobId = nat

  datatype Outcome = Delivered | Failed | Threw

  /** `after` is the job whose promise this one was chained to, if the map had an entry. */
  datatype Phase = Waiting(after: Option<JobId>) | Running(attempts: nat) | Settled

  datatype Job = Job(key: Key, phase: Phase)

  datatype Entry = Entry(job: JobId, outcome: Outcome)

  /** How many attempts a job gets, and whether an unchained job starts synchronously. */
  datatype Policy = Policy(maxAttempts: nat, eager: bool)

  const WEBHOOK_RETRY_DELAYS_MS: seq<nat> := [10000, 20000, 40000, 80000, 160000]
  const WEBHOOK_POLICY := Policy(|WEBHOOK_RETRY_DELAYS_MS| + 1, false)
  const EXCLUSIVE_POLICY := Policy(1, true)

  /** Jobs in the order they were enqueued; a job's id is its position. */
  datatype Chains = Chains(jobs: seq<Job>, tails: map<Key, JobId>, log: seq<Entry>)

  const NONE := Chains([], map[], [])

  datatype Event = Enqueue(key: Key) | Start(job: JobId) | Attempt(job: JobId, outcome: Outcome) | CleanUp(job: JobId)

  predicate Finished(p: Policy, attempts: nat, outcome: Outcome) {
    !outcome.Failed? || attempts >= p.maxAttempts
  }

  predicate Possible(c: Chains, e: Event) {
    match e
    case Enqueue(_) => true
    case Start(j) =>
      j < |c.jobs| && c.jobs[j].phase.Waiting?
      && (c.jobs[j].phase.after.Some? ==>
            c.jobs[j].phase.after.value < |c.jobs| && c.jobs[c.jobs[j].phase.after.value].phase.Settled?)
    case Attempt(j, _) => j < |c.jobs| && c.jobs[j].phase.Running?
    case CleanUp(j) => j < |c.jobs| && c.jobs[j].phase.Settled?
  }

  function Step(p: Policy, c: Chains, e: Event): Chains
    requires Possible(c, e)
  {
    match e
    case Enqueue(k) =>
      var previous := if k in c.tails then Some(c.tails[k]) else None;
      c.(jobs := c.jobs + [Job(k, if p.eager && previous.None? then Running(0) else Waiting(previous))],
         tails := c.tails[k := |c.jobs|])
    case Start(j) => c.(jobs := c.jobs[j := c.jobs[j].(phase := Running(0))])
    case Attempt(j, o) =>
      var n := c.jobs[j].phase.attempts + 1;
      c.(jobs := c.jobs[j := c.jobs[j].(phase := if Finished(p, n, o) then Settled else Running(n))],
         log := c.log + [Entry(j, o)])
    case CleanUp(j) =>
      var k := c.jobs[j].key;
      if k in c.tails && c.tails[k] == j then c.(tails := c.tails - {k}) else c
  }

  ghost predicate PossibleRun(p: Policy, c: Chains, es: seq<Event>)
    decreases |es|
  {
    es == [] || (Possible(c, es[0]) && PossibleRun(p, Step(p, c, es[0]), es[1..]))
  }

  ghost function Run(p: Policy, c: Chains, es: seq<Event>): Chains
    requires PossibleRun(p, c, es)
    decreases |es|
  {
    if es == [] then c else Run(p, Step(p, c, es[0]), es[1..])
  }

  // ----- What each event does -----

  /**
   A new job is chained to the newest job of its key, or runs at once where the policy says so; it is the
   key's newest from then on. No other key and no other job is concerned.
   */
  lemma EnqueueExactly(p: Policy, c: Chains, k: Key)
    ensures var c' := Step(p, c, Enqueue(k)); var n := |c.jobs|;
            && |c'.jobs| == n + 1 && c'.jobs[..n] == c.jobs && c'.jobs[n].key == k && c'.log == c.log
            && (k in c.tails ==> c'.jobs[n].phase == Waiting(Some(c.tails[k])))
            && (k !in c.tails ==> c'.jobs[n].phase == if p.eager then Running(0) else Waiting(None))
            && k in c'.tails && c'.tails[k] == n && c'.tails - {k} == c.tails - {k}
  {
  }

  /**
   A job that may start starts; an attempt is logged and is the last exactly if it did not fail or was the
   last allowed; a clean-up deletes the key's entry exactly if it is the job's own.
   */
  lemma AdvanceExactly(p: Policy, c: Chains, e: Event)
    requires Possible(c, e) && !e.Enqueue?
    ensures var c' := Step(p, c, e); var j := e.job;
            && |c'.jobs| == |c.jobs| && (forall i | 0 <= i < |c.jobs| && i != j :: c'.jobs[i] == c.jobs[i])
            && c'.jobs[j].key == c.jobs[j].key
            && c'.log == c.log + (if e.Attempt? then [Entry(j, e.outcome)] else [])
            && (match e
                case Start(_) => c'.jobs[j].phase == Running(0)
                case Attempt(_, o) =>
                  c'.jobs[j].phase == if o == Failed && c.jobs[j].phase.attempts + 1 < p.maxAttempts then Running(c.jobs[j].phase.attempts + 1) else Settled
                case CleanUp(_) => c'.jobs[j] == c.jobs[j])
            && (forall k :: k in c'.tails <==> k in c.tails && !(e.CleanUp? && k == c.jobs[j].key && c.tails[k] == j))
            && (forall k | k in c'.tails :: c'.tails[k] == c.tails[k])
  {
  }

  // ----- Mutual exclusion and order -----

  /** A job leaves the queue only when every earlier job of its key has settled. */
  ghost predicate Exclusive(jobs: seq<Job>) {
    forall i, j | 0 <= i < j < |jobs| && jobs[i].key == jobs[j].key && !jobs[j].phase.Waiting? :: jobs[i].phase.Settled?
  }

  /** A waiting job is chained to its immediate predecessor, or all its predecessors have settled. */
  ghost predicate Linked(jobs: seq<Job>) {
    forall j | 0 <= j < |jobs| && jobs[j].phase.Waiting? ::
      match jobs[j].phase.after
      case Some(p) => p < j && jobs[p].key == jobs[j].key && forall i | p < i < j :: jobs[i].key != jobs[j].key
      case None => forall i | 0 <= i < j && jobs[i].key == jobs[j].key :: jobs[i].phase.Settled?
  }

  /** A map entry is the newest job of its key; without an entry every job of the key has settled. */
  ghost predicate TailsNewest(c: Chains) {
    && (forall k | k in c.tails :: c.tails[k] < |c.jobs| && c.jobs[c.tails[k]].key == k
                                   && forall i | c.tails[k] < i < |c.jobs| :: c.jobs[i].key != k)
    && (forall i | 0 <= i < |c.jobs| && c.jobs[i].key !in c.tails :: c.jobs[i].phase.Settled?)
  }

  ghost predicate Sound(c: Chains) {
    Exclusive(c.jobs) && Linked(c.jobs) && TailsNewest(c)
  }

  /** A new job starts at once only when the key has no entry, that is, when all its jobs have settled. */
  lemma EnqueueExclusive(p: Policy, c: Chains, k: Key)
    requires Exclusive(c.jobs) && TailsNewest(c)
    ensures Exclusive(Step(p, c, Enqueue(k)).jobs)
  {
    var jobs := Step(p, c, Enqueue(k)).jobs;
    assert forall i | 0 <= i < |c.jobs| :: jobs[i] == c.jobs[i];
  }

  lemma EnqueueLinked(p: Policy, c: Chains, k: Key)
    requires Linked(c.jobs) && TailsNewest(c)
    ensures Linked(Step(p, c, Enqueue(k)).jobs)
  {
    var jobs := Step(p, c, Enqueue(k)).jobs;
    assert forall i | 0 <= i < |c.jobs| :: jobs[i] == c.jobs[i];
  }

  lemma EnqueueTails(p: Policy, c: Chains, k: Key)
    requires TailsNewest(c)
    ensures TailsNewest(Step(p, c, Enqueue(k)))
  {
    var jobs := Step(p, c, Enqueue(k)).jobs;
    assert forall i | 0 <= i < |c.jobs| :: jobs[i] == c.jobs[i];
  }

  lemma EnqueueSound(p: Policy, c: Chains, k: Key)
    requires Sound(c)
    ensures Sound(Step(p, c, Enqueue(k)))
  {
    hide Exclusive, Linked, TailsNewest, Step;
    EnqueueExclusive(p, c, k);
    EnqueueLinked(p, c, k);
    EnqueueTails(p, c, k);
  }

  /** An unsettled job moves on, all earlier jobs of its key having settled. */
  lemma AdvanceExclusive(jobs: seq<Job>, j: JobId, phase: Phase)
    requires Exclusive(jobs) && j < |jobs| && !jobs[j].phase.Settled? && !phase.Waiting?
    requires forall i | 0 <= i < j && jobs[i].key == jobs[j].key :: jobs[i].phase.Settled?
    ensures Exclusive(jobs[j := jobs[j].(phase := phase)])
  {
  }

  lemma AdvanceLinked(jobs: seq<Job>, j: JobId, phase: Phase)
    requires Linked(jobs) && j < |jobs| && !jobs[j].phase.Settled? && !phase.Waiting?
    ensures Linked(jobs[j := jobs[j].(phase := phase)])
  {
    var jobs' := jobs[j := jobs[j].(phase := phase)];
    assert forall i | 0 <= i < |jobs| :: jobs'[i].key == jobs[i].key && (i != j ==> jobs'[i] == jobs[i]);
  }

  lemma AdvanceTails(c: Chains, j: JobId, phase: Phase, log: seq<Entry>)
    requires TailsNewest(c) && j < |c.jobs| && !c.jobs[j].phase.Settled?
    ensures TailsNewest(c.(jobs := c.jobs[j := c.jobs[j].(phase := phase)], log := log))
  {
  }

  lemma PredecessorsSettled(jobs: seq<Job>, j: JobId)
    requires Exclusive(jobs) && Linked(jobs) && j < |jobs|
    requires jobs[j].phase.Waiting? ==> jobs[j].phase.after.Some? ==> jobs[jobs[j].phase.after.value].phase.Settled?
    ensures forall i | 0 <= i < j && jobs[i].key == jobs[j].key :: jobs[i].phase.Settled?
  {
  }

  lemma StartSound(p: Policy, c: Chains, j: JobId)
    requires Sound(c) && Possible(c, Start(j))
    ensures Sound(Step(p, c, Start(j)))
  {
    hide Exclusive, Linked, TailsNewest;
    PredecessorsSettled(c.jobs, j);
    AdvanceExclusive(c.jobs, j, Running(0));
    AdvanceLinked(c.jobs, j, Running(0));
    AdvanceTails(c, j, Running(0), c.log);
  }

  lemma AttemptSound(p: Policy, c: Chains, j: JobId, o: Outcome)
    requires Sound(c) && Possible(c, Attempt(j, o))
    ensures Sound(Step(p, c, Attempt(j, o)))
  {
    hide Exclusive, Linked, TailsNewest, Finished;
    var n := c.jobs[j].phase.attempts + 1;
    var phase := if Finished(p, n, o) then Settled else Running(n);
    PredecessorsSettled(c.jobs, j);
    AdvanceExclusive(c.jobs, j, phase);
    AdvanceLinked(c.jobs, j, phase);
    AdvanceTails(c, j, phase, c.log + [Entry(j, o)]);
  }

  /** The heart of the clean-up guard: the entry it deletes is its own, so nothing newer is forgotten. */
  lemma CleanUpSound(p: Policy, c: Chains, j: JobId)
    requires Sound(c) && Possible(c, CleanUp(j))
    ensures Sound(Step(p, c, CleanUp(j)))
    ensures var c' := Step(p, c, CleanUp(j));
            forall k | k in c.tails && k !in c'.tails :: forall i | 0 <= i < |c.jobs| && c.jobs[i].key == k :: c.jobs[i].phase.Settled?
  {
  }

  lemma StepSound(p: Policy, c: Chains, e: Event)
    requires Sound(c) && Possible(c, e)
    ensures Sound(Step(p, c, e))
  {
    match e
    case Enqueue(k) => EnqueueSound(p, c, k);
    case Start(j) => StartSound(p, c, j);
    case Attempt(j, o) => AttemptSound(p, c, j, o);
    case CleanUp(j) => CleanUpSound(p, c, j);
  }

  // ----- The attempt log -----

  /** The outcomes of one job's attempts, in order. */
  function Outcomes(log: seq<Entry>, j: JobId): seq<Outcome> {
    if log == [] then []
    else
      var last := log[|log| - 1];
      Outcomes(log[..|log| - 1], j) + (if last.job == j then [last.outcome] else [])
  }

  /** One to maxAttempts attempts, every one but the last a failure, and the last one final. */
  ghost predicate CompleteBlock(p: Policy, os: seq<Outcome>) {
    && 1 <= |os| <= p.maxAttempts
    && (forall i | 0 <= i < |os| - 1 :: os[i].Failed?)
    && (os[|os| - 1].Failed? ==> |os| == p.maxAttempts)
  }

  /** The attempts a job in this phase has made. */
  ghost predicate AttemptsOk(p: Policy, phase: Phase, os: seq<Outcome>) {
    match phase
    case Waiting(_) => os == []
    case Running(n) => |os| == n < p.maxAttempts && forall i | 0 <= i < n :: os[i].Failed?
    case Settled => CompleteBlock(p, os)
  }

  ghost predicate BlocksOk(p: Policy, c: Chains) {
    forall j | 0 <= j < |c.jobs| :: AttemptsOk(p, c.jobs[j].phase, Outcomes(c.log, j))
  }

  /** Attempts of one key appear in the log in the order the jobs were enqueued. */
  ghost predicate LogOrdered(c: Chains) {
    && (forall x | 0 <= x < |c.log| :: c.log[x].job < |c.jobs| && !c.jobs[c.log[x].job].phase.Waiting?)
    && (forall x, y | 0 <= x < y < |c.log| && c.jobs[c.log[x].job].key == c.jobs[c.log[y].job].key ::
          c.log[x].job <= c.log[y].job)
  }

  lemma OutcomesAppend(log: seq<Entry>, e: Entry, j: JobId)
    ensures Outcomes(log + [e], j) == Outcomes(log, j) + (if e.job == j then [e.outcome] else [])
  {
    assert (log + [e])[..|log|] == log;
  }

  lemma NoOutcomesYet(log: seq<Entry>, j: JobId)
    requires forall x | 0 <= x < |log| :: log[x].job != j
    ensures Outcomes(log, j) == []
  {
  }

  /** One more attempt completes the block, or leaves the job running. */
  lemma AttemptExtends(p: Policy, n: nat, os: seq<Outcome>, o: Outcome)
    requires AttemptsOk(p, Running(n), os)
    ensures AttemptsOk(p, if Finished(p, n + 1, o) then Settled else Running(n + 1), os + [o])
  {
  }

  lemma StepBlocks(p: Policy, c: Chains, e: Event)
    requires p.maxAttempts >= 1 && LogOrdered(c) && BlocksOk(p, c) && Possible(c, e)
    ensures BlocksOk(p, Step(p, c, e))
  {
    var c' := Step(p, c, e);
    match e
    case Enqueue(k) => NoOutcomesYet(c.log, |c.jobs|);
    case Start(j) =>
    case Attempt(j, o) =>
      var n := c.jobs[j].phase.attempts;
      hide CompleteBlock, Finished, Outcomes;
      forall i | 0 <= i < |c'.jobs| ensures AttemptsOk(p, c'.jobs[i].phase, Outcomes(c'.log, i)) {
        OutcomesAppend(c.log, Entry(j, o), i);
        assert AttemptsOk(p, c.jobs[i].phase, Outcomes(c.log, i));
        hide AttemptsOk;
        if i == j {
          AttemptExtends(p, n, Outcomes(c.log, j), o);
        } else {
          assert Outcomes(c.log, i) + [] == Outcomes(c.log, i);
        }
      }
    case CleanUp(j) =>
  }

  lemma StepLog(p: Policy, c: Chains, e: Event)
    requires Sound(c) && LogOrdered(c) && Possible(c, e)
    ensures LogOrdered(Step(p, c, e))
  {
    var c' := Step(p, c, e);
    assert forall i | 0 <= i < |c.jobs| :: c'.jobs[i].key == c.jobs[i].key;
  }

  /**
   For any interleaving of enqueues, starts, attempts and clean-ups: jobs of one key never overlap,
   they run in the order they were enqueued, and each contributes one complete block of attempts.
   */
  lemma {:induction false} ChainsSafe(p: Policy, c: Chains, es: seq<Event>)
    requires p.maxAttempts >= 1 && PossibleRun(p, c, es)
    requires Sound(c) && LogOrdered(c) && BlocksOk(p, c)
    ensures Sound(Run(p, c, es)) && LogOrdered(Run(p, c, es)) && BlocksOk(p, Run(p, c, es))
    decreases |es|
  {
    if es != [] {
      StepSound(p, c, es[0]);
      StepLog(p, c, es[0]);
      StepBlocks(p, c, es[0]);
      hide Step, Sound, LogOrdered, BlocksOk;
      ChainsSafe(p, Step(p, c, es[0]), es[1..]);
    }
  }

  lemma NoneSafe(p: Policy)
    ensures Sound(NONE) && LogOrdered(NONE) && BlocksOk(p, NONE)
  {
  }

  /** Two jobs of one key are never running at once. */
  lemma NoOverlap(c: Chains, i: JobId, j: JobId)
    requires Sound(c) && i < |c.jobs| && j < |c.jobs| && i != j && c.jobs[i].key == c.jobs[j].key
    ensures !(c.jobs[i].phase.Running? && c.jobs[j].phase.Running?)
  {
  }

  /** No key is ever stuck: its first unsettled job can always move. */
  lemma {:induction false} Progress(c: Chains, j: JobId)
    requires Sound(c) && j < |c.jobs| && !c.jobs[j].phase.Settled?
    ensures exists i | 0 <= i <= j ::
              c.jobs[i].key == c.jobs[j].key && (Possible(c, Start(i)) || Possible(c, Attempt(i, Delivered)))
    decreases j
  {
    if c.jobs[j].phase.Waiting? && c.jobs[j].phase.after.Some? && !c.jobs[c.jobs[j].phase.after.value].phase.Settled? {
      Progress(c, c.jobs[j].phase.after.value);
    } else {
      assert Possible(c, Start(j)) || Possible(c, Attempt(j, Delivered));
    }
  }
}
