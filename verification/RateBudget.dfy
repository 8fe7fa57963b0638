/**
 Sliding-window budgets over a monotone clock: a pruned list of recent times, as kept by the client's
 rejoin limiter and by the egress restart limiter, against the full history of times.
 */
module RateBudget {
  type Millis = int

  ghost predicate Monotone(ts: seq<Millis>) {
    forall i, j | 0 <= i <= j < |ts| :: ts[i] <= ts[j]
  }

  /** The times still inside the window: `filter((t) => now - t < window)`. */
  function Recent(ts: seq<Millis>, now: Millis, window: Millis): seq<Millis> {
    if ts == [] then []
    else (if now - ts[0] < window then [ts[0]] else []) + Recent(ts[1..], now, window)
  }

  /** How many leading times have left the window. */
  function Expired(ts: seq<Millis>, now: Millis, window: Millis): nat {
    if ts == [] || now - ts[0] < window then 0 else 1 + Expired(ts[1..], now, window)
  }

  /** On a monotone history the pruned list is exactly the in-window suffix. */
  lemma {:induction false} RecentIsSuffix(ts: seq<Millis>, now: Millis, window: Millis)
    requires Monotone(ts)
    ensures var k := Expired(ts, now, window);
            && k <= |ts| && Recent(ts, now, window) == ts[k..]
            && (forall i | 0 <= i < k :: now - ts[i] >= window)
            && (forall i | k <= i < |ts| :: now - ts[i] < window)
  {
    if ts != [] {
      assert Monotone(ts[1..]);
      RecentIsSuffix(ts[1..], now, window);
      if now - ts[0] < window {
        if |ts| > 1 { assert ts[0] <= ts[1]; }
        assert Recent(ts, now, window) == [ts[0]] + ts[1..] == ts;
      }
    }
  }

  lemma {:induction false} RecentAppend(ts: seq<Millis>, t: Millis, now: Millis, window: Millis)
    ensures Recent(ts + [t], now, window) == Recent(ts, now, window) + (if now - t < window then [t] else [])
  {
    if ts == [] {
      assert [t][1..] == [];
    } else {
      assert (ts + [t])[1..] == ts[1..] + [t];
      RecentAppend(ts[1..], t, now, window);
    }
  }

  /** Pruning a pruned list later gives what pruning the whole history then would. */
  lemma {:induction false} RecentAgain(ts: seq<Millis>, earlier: Millis, now: Millis, window: Millis)
    requires earlier <= now
    ensures Recent(Recent(ts, earlier, window), now, window) == Recent(ts, now, window)
  {
    if ts != [] {
      RecentAgain(ts[1..], earlier, now, window);
      var rest := Recent(ts[1..], earlier, window);
      assert Recent(ts, earlier, window) == (if earlier - ts[0] < window then [ts[0]] + rest else rest);
      if earlier - ts[0] < window { assert ([ts[0]] + rest)[1..] == rest; }
    }
  }

  /**
   What a full window means: `budget` or more recent times exist exactly when the time `budget` places
   from the end of the history is still inside the window.
   */
  lemma FullExactly(ts: seq<Millis>, now: Millis, window: Millis, budget: nat)
    requires Monotone(ts) && budget >= 1
    ensures |Recent(ts, now, window)| >= budget <==> |ts| >= budget && now - ts[|ts| - budget] < window
  {
    RecentIsSuffix(ts, now, window);
  }

  /** No `budget + 1` of the times fit in one window. */
  ghost predicate Spaced(ts: seq<Millis>, window: Millis, budget: nat) {
    forall i | 0 <= i && i + budget < |ts| :: ts[i + budget] - ts[i] >= window
  }

  /** Admitting one more time keeps the spacing exactly when the window was not full. */
  lemma SpacedAppend(ts: seq<Millis>, now: Millis, window: Millis, budget: nat)
    requires Monotone(ts) && budget >= 1 && Spaced(ts, window, budget)
    ensures Spaced(ts + [now], window, budget) <==> |Recent(ts, now, window)| < budget
  {
    FullExactly(ts, now, window, budget);
    var ts' := ts + [now];
    if |ts| >= budget { assert ts'[|ts| - budget + budget] - ts'[|ts| - budget] == now - ts[|ts| - budget]; }
  }
}
