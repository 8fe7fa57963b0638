/** The restart budget of one egress session, and the recording part its next pipeline writes. */
module PipelineRestarts {
  import opened RateBudget

  const RETRY_WINDOW_MS: Millis := 300000
  const MAX_RESTARTS: nat := 3

  /** The failure times at the given positions: those answered with a restart. */
  function Pick(failures: seq<Millis>, answered: seq<nat>): (ts: seq<Millis>)
    requires forall i | 0 <= i < |answered| :: answered[i] < |failures|
    ensures |ts| == |answered| && forall i | 0 <= i < |ts| :: ts[i] == failures[answered[i]]
  {
    seq(|answered|, i requires 0 <= i < |answered| => failures[answered[i]])
  }

  ghost predicate Positions(answered: seq<nat>, n: nat) {
    && (forall i | 0 <= i < |answered| :: answered[i] < n)
    && (forall i, j | 0 <= i < j < |answered| :: answered[i] < answered[j])
  }

  /** A restart was granted only when at most two earlier failures were in the window. */
  ghost predicate Granted(failures: seq<Millis>, answered: seq<nat>) {
    forall i | 0 <= i < |answered| :: answered[i] < |failures| && answered[i] >= MAX_RESTARTS ==>
      failures[answered[i]] - failures[answered[i] - MAX_RESTARTS] >= RETRY_WINDOW_MS
  }

  lemma {:induction false} Apart(answered: seq<nat>, n: nat, i: nat, k: nat)
    requires Positions(answered, n) && i + k < |answered|
    ensures answered[i] + k <= answered[i + k]
  {
    if k > 0 { Apart(answered, n, i, k - 1); }
  }

  /** Refused failures count against the budget too, so granted restarts are spaced a fortiori. */
  lemma RestartsSpaced(failures: seq<Millis>, answered: seq<nat>)
    requires Monotone(failures) && Positions(answered, |failures|) && Granted(failures, answered)
    ensures Spaced(Pick(failures, answered), 300000, 3)
  {
    forall i | 0 <= i && i + MAX_RESTARTS < |answered|
      ensures failures[answered[i + MAX_RESTARTS]] - failures[answered[i]] >= RETRY_WINDOW_MS
    {
      Apart(answered, |failures|, i, MAX_RESTARTS);
      var j := answered[i + MAX_RESTARTS];
      assert failures[answered[i]] <= failures[j - MAX_RESTARTS];
    }
  }

  lemma FailureKeeps(failures: seq<Millis>, answered: seq<nat>, now: Millis)
    requires Monotone(failures) && (failures != [] ==> failures[|failures| - 1] <= now)
    requires Positions(answered, |failures|) && Granted(failures, answered)
    ensures Monotone(failures + [now]) && Positions(answered, |failures| + 1) && Granted(failures + [now], answered)
    ensures |failures| < MAX_RESTARTS || now - failures[|failures| - MAX_RESTARTS] >= RETRY_WINDOW_MS ==>
              Positions(answered + [|failures|], |failures| + 1) && Granted(failures + [now], answered + [|failures|])
  {
    var answered', failures' := answered + [|failures|], failures + [now];
    assert forall i | 0 <= i < |answered| :: answered'[i] == answered[i];
  }

  class EgressSession {
    var restartTimes: seq<Millis>
    var recording: bool
    var recordingPart: nat
    var failed: bool
    ghost var failures: seq<Millis>
    ghost var restarted: seq<nat>
    ghost var clock: Millis

    ghost predicate Valid()
      reads this
    {
      && Monotone(failures) && (failures != [] ==> failures[|failures| - 1] <= clock)
      && restartTimes == Recent(failures, clock, RETRY_WINDOW_MS)
      && Positions(restarted, |failures|) && Granted(failures, restarted)
    }

    constructor (record: bool, now: Millis)
      ensures Valid() && failures == [] && restarted == [] && clock == now && recordingPart == 0 && !failed && recording == record
    {
      restartTimes, recording, recordingPart, failed, failures, restarted, clock := [], record, 0, false, [], [], now;
    }

    /**
     A failure restarts the pipeline, into the next recording part, unless three earlier failures lie
     within the last five minutes. Without a restart, or when startPipeline throws, the session fails.
     */
    method OnPipelineFailure(now: Millis, starts: bool) returns (restart: bool)
      requires Valid() && clock <= now
      modifies this
      ensures Valid() && clock == now && failures == old(failures) + [now]
      ensures restart <==> !(|old(failures)| >= 3 && now - old(failures)[|old(failures)| - 3] < 300000)
      ensures restarted == old(restarted) + (if restart then [|old(failures)|] else [])
      ensures failed == (old(failed) || !restart || !starts) && recording == old(recording)
      ensures recordingPart == old(recordingPart) + (if restart && recording then 1 else 0)
      ensures Spaced(Pick(failures, restarted), 300000, 3)
    {
      hide Recent, Granted, Positions, Monotone, Spaced;
      RecentAgain(failures, clock, now, RETRY_WINDOW_MS);
      RecentAppend(failures, now, now, RETRY_WINDOW_MS);
      FullExactly(failures, now, RETRY_WINDOW_MS, MAX_RESTARTS);
      FailureKeeps(failures, restarted, now);
      restartTimes := Recent(restartTimes, now, RETRY_WINDOW_MS) + [now];
      failures, clock := failures + [now], now;
      restart := |restartTimes| <= MAX_RESTARTS;
      if restart {
        restarted := restarted + [|old(failures)|];
        if recording { recordingPart := recordingPart + 1; }
        if !starts { failed := true; }
      } else {
        failed := true;
      }
      RestartsSpaced(failures, restarted);
    }
  }
}
