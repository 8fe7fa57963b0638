/** Active-speaker election with hysteresis: a minimum reign, a switch margin and a silence hold. */
module ActiveSpeaker {
  import opened Common

  type Id = string
  type Millis = int

  datatype Options = Options(threshold: real, holdTime: Millis, margin: real)

  const DEFAULTS := Options(0.003, 800, 1.3)

  /** Levels in the map's insertion order. */
  datatype Tick = Tick(now: Millis, levels: seq<(Id, real)>)

  /** `silence` is 0 while no silence is being timed. */
  datatype State = State(active: Option<Id>, since: Millis, level: real, silence: Millis)

  const QUIET := State(None, 0, 0.0, 0)

  predicate Heard(o: Options, level: real) { level > 0.0 && level >= o.threshold }

  /** Loudest of the first levels: the first entry of the greatest level that is heard at all. */
  function Loudest(o: Options, levels: seq<(Id, real)>): Option<(Id, real)> {
    if levels == [] then None
    else
      var before := Loudest(o, levels[..|levels| - 1]);
      var last := levels[|levels| - 1];
      if last.1 > (if before.Some? then before.value.1 else 0.0) && last.1 >= o.threshold then Some(last) else before
  }

  /** An empty id counts as no one, in the election as in the state. */
  function Speaker(o: Options, levels: seq<(Id, real)>): Option<(Id, real)> {
    var l := Loudest(o, levels);
    if l.Some? && l.value.0 != "" then l else None
  }

  function Elected(t: Tick, who: (Id, real)): State { State(Some(who.0), t.now, who.1, 0) }

  function Step(o: Options, s: State, t: Tick): State {
    match Speaker(o, t.levels)
    case None =>
      if s.active.None? then s
      else if s.silence == 0 then s.(silence := t.now)
      else if t.now - s.silence > o.holdTime then QUIET
      else s
    case Some(who) =>
      if s.active.None? then Elected(t, who)
      else if Some(who.0) == s.active then s.(level := who.1, silence := 0)
      else if t.now - s.since < o.holdTime then s
      else if who.1 > s.level * o.margin then Elected(t, who)
      else s
  }

  function After(o: Options, ts: seq<Tick>): State {
    if ts == [] then QUIET else Step(o, After(o, ts[..|ts| - 1]), ts[|ts| - 1])
  }

  /** A positive clock that never goes back. */
  ghost predicate Clocked(ts: seq<Tick>) {
    (forall i | 0 <= i < |ts| :: ts[i].now > 0) && forall i, j | 0 <= i <= j < |ts| :: ts[i].now <= ts[j].now
  }

  /** What detect reports at tick `i`. */
  function Reported(o: Options, ts: seq<Tick>, i: nat): Option<Id>
    requires i < |ts|
  {
    After(o, ts[..i + 1]).active
  }

  // ----- The loudest id -----

  /** Entry `k` is heard, no entry is louder, and every earlier one is less loud. */
  ghost predicate FirstLoudest(o: Options, levels: seq<(Id, real)>, k: int) {
    && 0 <= k < |levels| && Heard(o, levels[k].1)
    && (forall i | 0 <= i < |levels| :: levels[i].1 <= levels[k].1)
    && (forall i | 0 <= i < k :: levels[i].1 < levels[k].1)
  }

  ghost predicate Unheard(o: Options, levels: seq<(Id, real)>) { forall i | 0 <= i < |levels| :: !Heard(o, levels[i].1) }

  /** One more entry replaces the loudest only when it is louder. */
  lemma LouderLast(o: Options, init: seq<(Id, real)>, last: (Id, real), k: int)
    requires FirstLoudest(o, init, k)
    ensures var all := init + [last];
            FirstLoudest(o, all, if last.1 > init[k].1 then |init| else k) && (last.1 > init[k].1 ==> Heard(o, last.1))
            && all[if last.1 > init[k].1 then |init| else k] == (if last.1 > init[k].1 then last else init[k])
  {
    var all := init + [last];
    assert forall i | 0 <= i < |init| :: all[i] == init[i];
  }

  lemma FirstHeard(o: Options, init: seq<(Id, real)>, last: (Id, real))
    requires Unheard(o, init)
    ensures Heard(o, last.1) ==> FirstLoudest(o, init + [last], |init|) && (init + [last])[|init|] == last
    ensures !Heard(o, last.1) ==> Unheard(o, init + [last])
  {
    var all := init + [last];
    assert forall i | 0 <= i < |init| :: all[i] == init[i] && !Heard(o, init[i].1);
  }

  /** The loudest id is the first of the greatest level, and there is none exactly when nobody is heard. */
  lemma {:induction false} LoudestExact(o: Options, levels: seq<(Id, real)>)
    ensures Loudest(o, levels) == None <==> Unheard(o, levels)
    ensures Loudest(o, levels).Some? ==> exists k :: FirstLoudest(o, levels, k) && levels[k] == Loudest(o, levels).value
  {
    if levels != [] {
      var init, last := levels[..|levels| - 1], levels[|levels| - 1];
      LoudestExact(o, init);
      assert levels == init + [last];
      if Loudest(o, init).Some? {
        var k :| FirstLoudest(o, init, k) && init[k] == Loudest(o, init).value;
        LouderLast(o, init, last, k);
        assert FirstLoudest(o, levels, if last.1 > init[k].1 then |init| else k);
      } else {
        FirstHeard(o, init, last);
        assert Heard(o, last.1) ==> FirstLoudest(o, levels, |init|);
      }
    }
  }

  // ----- Runs -----

  /** The speaker at the end has been reported since the tick it was elected at, when it was the loudest. */
  ghost predicate ElectedAt(o: Options, ts: seq<Tick>, i: nat)
    requires i < |ts|
  {
    var s := After(o, ts);
    && s.active.Some? && s.since == ts[i].now
    && Speaker(o, ts[i].levels).Some? && Speaker(o, ts[i].levels).value.0 == s.active.value
    && (i > 0 ==> Reported(o, ts, i - 1) != s.active)
    && (forall j | i <= j < |ts| :: Reported(o, ts, j) == s.active)
  }

  lemma ReportedPrefix(o: Options, ts: seq<Tick>, n: nat, i: nat)
    requires i < n <= |ts|
    ensures Reported(o, ts[..n], i) == Reported(o, ts, i)
  {
    assert ts[..n][..i + 1] == ts[..i + 1];
  }

  /** Whoever is reported was elected at some tick as the loudest above the threshold, and has been since. */
  lemma {:induction false} ElectionFound(o: Options, ts: seq<Tick>) returns (i: nat)
    requires After(o, ts).active.Some?
    ensures i < |ts| && ElectedAt(o, ts, i)
  {
    var n := |ts| - 1;
    var before, s := After(o, ts[..n]), After(o, ts);
    assert ts[..n + 1] == ts;
    assert Reported(o, ts, n) == s.active;
    if before.active == s.active && before.since == s.since && before.active.Some? {
      i := ElectionFound(o, ts[..n]);
      forall j | 0 <= j < n ensures Reported(o, ts, j) == Reported(o, ts[..n], j) { ReportedPrefix(o, ts, n, j); }
    } else {
      i := n;
      if n > 0 { assert ts[..n] == ts[..(n - 1) + 1]; }
    }
  }

  /** Between two ticks the reign of one speaker is never cut short. */
  lemma {:induction false} ReignHolds(o: Options, ts: seq<Tick>, i: nat, j: nat)
    requires Clocked(ts) && i <= j < |ts| && o.holdTime >= 0
    requires After(o, ts[..i + 1]).active.Some? && After(o, ts[..i + 1]).since == ts[i].now && After(o, ts[..i + 1]).silence == 0
    requires ts[j].now - ts[i].now < o.holdTime
    ensures var s := After(o, ts[..j + 1]);
            s.active == After(o, ts[..i + 1]).active && s.since == ts[i].now && (s.silence == 0 || s.silence >= ts[i].now)
    decreases j
  {
    if i < j {
      assert ts[..j + 1][..j] == ts[..j] == ts[..(j - 1) + 1];
      assert ts[j - 1].now <= ts[j].now && ts[i].now <= ts[j - 1].now;
      ReignHolds(o, ts, i, j - 1);
    }
  }

  /**
   Minimum reign: from the tick a speaker is newly reported, the same speaker is reported at every tick
   of the next holdTime, whatever the levels.
   */
  lemma MinimumReign(o: Options, ts: seq<Tick>, i: nat, j: nat)
    requires Clocked(ts) && i <= j < |ts| && o.holdTime >= 0
    requires Reported(o, ts, i).Some? && (i == 0 || Reported(o, ts, i - 1) != Reported(o, ts, i))
    requires ts[j].now - ts[i].now < o.holdTime
    ensures Reported(o, ts, j) == Reported(o, ts, i)
    ensures Speaker(o, ts[i].levels).Some? && Some(Speaker(o, ts[i].levels).value.0) == Reported(o, ts, i)
  {
    assert ts[..i + 1][..i] == ts[..i];
    if i > 0 { assert ts[..i] == ts[..(i - 1) + 1]; }
    ReignHolds(o, ts, i, j);
  }

  /** While silence is being timed, the speaker has not been the loudest since the tick the timing began. */
  lemma {:induction false} SilenceBegan(o: Options, ts: seq<Tick>) returns (i: nat)
    requires Clocked(ts) && After(o, ts).silence != 0
    ensures i < |ts| && After(o, ts).silence == ts[i].now && Speaker(o, ts[i].levels) == None
    ensures After(o, ts).active.Some?
    ensures forall k | i <= k < |ts| ::
              Speaker(o, ts[k].levels).Some? ==> Some(Speaker(o, ts[k].levels).value.0) != After(o, ts).active
  {
    var n := |ts| - 1;
    var before := After(o, ts[..n]);
    if before.silence != 0 {
      assert Clocked(ts[..n]);
      i := SilenceBegan(o, ts[..n]);
      assert forall k | 0 <= k < n :: ts[..n][k] == ts[k];
    } else {
      i := n;
    }
  }

  /**
   A speaker is dropped to nobody only after more than holdTime without being the loudest, in a run that
   began and ended in silence.
   */
  lemma DroppedOnlyAfterSilence(o: Options, ts: seq<Tick>, j: nat) returns (i: nat)
    requires Clocked(ts) && 0 < j < |ts|
    requires Reported(o, ts, j - 1).Some? && Reported(o, ts, j) == None
    ensures i < j && ts[j].now - ts[i].now > o.holdTime
    ensures Speaker(o, ts[i].levels) == None && Speaker(o, ts[j].levels) == None
    ensures forall k | i <= k <= j ::
              Speaker(o, ts[k].levels).Some? ==> Some(Speaker(o, ts[k].levels).value.0) != Reported(o, ts, j - 1)
  {
    assert ts[..j + 1][..j] == ts[..j] == ts[..(j - 1) + 1];
    assert Clocked(ts[..j]);
    i := SilenceBegan(o, ts[..j]);
    assert forall k | 0 <= k < j :: ts[..j][k] == ts[k];
  }

  /** One speaker replaces another only as the loudest, a full holdTime after that one was elected. */
  lemma SwitchedOnlyAfterReign(o: Options, ts: seq<Tick>, j: nat) returns (i: nat)
    requires Clocked(ts) && 0 < j < |ts|
    requires Reported(o, ts, j - 1).Some? && Reported(o, ts, j).Some? && Reported(o, ts, j) != Reported(o, ts, j - 1)
    ensures i < j && ts[j].now - ts[i].now >= o.holdTime && ElectedAt(o, ts[..j], i)
    ensures Speaker(o, ts[j].levels).Some? && Some(Speaker(o, ts[j].levels).value.0) == Reported(o, ts, j)
    ensures Speaker(o, ts[j].levels).value.1 > After(o, ts[..j]).level * o.margin
  {
    assert ts[..j + 1][..j] == ts[..j] == ts[..(j - 1) + 1];
    i := ElectionFound(o, ts[..j]);
    assert ts[..j][i] == ts[i];
    hide Speaker, ElectedAt;
    assert After(o, ts[..j]).since == ts[i].now by { SinceElected(o, ts[..j], i); }
  }

  lemma SinceElected(o: Options, ts: seq<Tick>, i: nat)
    requires i < |ts| && ElectedAt(o, ts, i)
    ensures After(o, ts).since == ts[i].now
  {
    hide After, Speaker;
  }

  /** The level a challenger has to beat is the speaker's own when it was last the loudest. */
  lemma {:induction false} LevelRemembered(o: Options, ts: seq<Tick>) returns (i: nat)
    requires After(o, ts).active.Some?
    ensures i < |ts| && Speaker(o, ts[i].levels) == Some((After(o, ts).active.value, After(o, ts).level))
    ensures forall k | i < k < |ts| ::
              Speaker(o, ts[k].levels).Some? ==> Some(Speaker(o, ts[k].levels).value.0) != After(o, ts).active
  {
    var n := |ts| - 1;
    var who := Speaker(o, ts[n].levels);
    if who.Some? && Some(who.value.0) == After(o, ts).active {
      i := n;
    } else {
      i := LevelRemembered(o, ts[..n]);
      assert forall k | 0 <= k < n :: ts[..n][k] == ts[k];
    }
  }

  // ----- Exactly when somebody is elected, takes over, or is dropped -----

  /** The first of the loudest entries that are heard is `x`'s, at level `v`; an entry without an id stands for no one. */
  ghost predicate LoudestIs(o: Options, t: Tick, x: Id, v: real) {
    x != "" && exists k :: FirstLoudest(o, t.levels, k) && t.levels[k] == (x, v)
  }

  ghost predicate Silent(o: Options, t: Tick) { forall x, v :: !LoudestIs(o, t, x, v) }

  lemma SpeakerExact(o: Options, t: Tick, x: Id, v: real)
    ensures LoudestIs(o, t, x, v) <==> Speaker(o, t.levels) == Some((x, v))
    ensures Silent(o, t) <==> Speaker(o, t.levels) == None
  {
    LoudestExact(o, t.levels);
    hide Loudest;
    var l := Loudest(o, t.levels);
    if l.Some? {
      var k :| FirstLoudest(o, t.levels, k) && t.levels[k] == l.value;
      assert forall m :: FirstLoudest(o, t.levels, m) ==> m == k;
      if l.value.0 != "" { assert LoudestIs(o, t, l.value.0, l.value.1); }
    }
  }

  /** `y` is reported from tick `i` up to before tick `j`, and not just before. */
  ghost predicate Reigns(o: Options, ts: seq<Tick>, y: Id, i: nat, j: nat)
    requires j <= |ts|
  {
    && i < j && (i > 0 ==> Reported(o, ts, i - 1) != Some(y))
    && forall k | i <= k < j :: Reported(o, ts, k) == Some(y)
  }

  /** Tick `m` is the last one before tick `j` at which `y` was the loudest, at level `v`. */
  ghost predicate LastHeard(o: Options, ts: seq<Tick>, y: Id, v: real, m: nat, j: nat)
    requires j <= |ts|
  {
    && m < j && LoudestIs(o, ts[m], y, v)
    && forall k, u | m < k < j :: !LoudestIs(o, ts[k], y, u)
  }

  lemma ReignExists(o: Options, ts: seq<Tick>, j: nat) returns (y: Id, v: real, i: nat, m: nat)
    requires 0 < j <= |ts| && Reported(o, ts, j - 1).Some?
    ensures Reported(o, ts, j - 1) == Some(y) && Reigns(o, ts, y, i, j) && LastHeard(o, ts, y, v, m, j)
    ensures After(o, ts[..j]).since == ts[i].now && After(o, ts[..j]).level == v
  {
    var past := ts[..j];
    assert ts[..(j - 1) + 1] == past;
    y, v := After(o, past).active.value, After(o, past).level;
    i := ElectionFound(o, past);
    m := LevelRemembered(o, past);
    hide After;
    forall k | 0 <= k < j ensures Reported(o, past, k) == Reported(o, ts, k) { ReportedPrefix(o, ts, j, k); }
    SpeakerExact(o, ts[m], y, v);
    forall k, u | m < k < j ensures !LoudestIs(o, ts[k], y, u) {
      assert past[k] == ts[k];
      SpeakerExact(o, ts[k], y, u);
    }
  }

  /** There is one reign and one last time heard. */
  lemma ReignUnique(o: Options, ts: seq<Tick>, y: Id, i: nat, i': nat, v: real, v': real, m: nat, m': nat, j: nat)
    requires j <= |ts| && Reigns(o, ts, y, i, j) && Reigns(o, ts, y, i', j)
    requires LastHeard(o, ts, y, v, m, j) && LastHeard(o, ts, y, v', m', j)
    ensures i == i' && m == m' && v == v'
  {
    hide Reported, LoudestIs;
    assert i > 0 && i' > 0 ==> Reported(o, ts, i - 1) != Some(y) && Reported(o, ts, i' - 1) != Some(y);
    SpeakerExact(o, ts[m], y, v);
    SpeakerExact(o, ts[m], y, v');
  }

  /** What a tick does to the speaker reported before, in terms of the tick before. */
  lemma ReportedStep(o: Options, ts: seq<Tick>, j: nat)
    requires j < |ts|
    ensures Reported(o, ts, j) == Step(o, After(o, ts[..j]), ts[j]).active
    ensures After(o, ts[..j]).active == if j == 0 then None else Reported(o, ts, j - 1)
  {
    assert ts[..j + 1][..j] == ts[..j];
    if j > 0 { assert ts[..(j - 1) + 1] == ts[..j]; }
  }

  /** With nobody reported before, exactly the loudest of those heard is reported, at once. */
  lemma ElectedExactly(o: Options, ts: seq<Tick>, j: nat, x: Id)
    requires j < |ts| && (j == 0 || Reported(o, ts, j - 1) == None)
    ensures Reported(o, ts, j) == Some(x) <==> exists v :: LoudestIs(o, ts[j], x, v)
  {
    ReportedStep(o, ts, j);
    hide After, Reported;
    var who := Speaker(o, ts[j].levels);
    forall v ensures LoudestIs(o, ts[j], x, v) <==> who == Some((x, v)) { SpeakerExact(o, ts[j], x, v); }
    hide LoudestIs, Speaker;
    if who.Some? && who.value.0 == x { assert who == Some((x, who.value.1)); }
  }

  /**
   Another speaker takes over exactly as the loudest, a full holdTime after the one reported was elected, and
   louder by the margin than that one was when last the loudest.
   */
  lemma TakeoverExactly(o: Options, ts: seq<Tick>, j: nat, y: Id, i: nat, u: real, m: nat, x: Id)
    requires j < |ts| && Reigns(o, ts, y, i, j) && LastHeard(o, ts, y, u, m, j) && x != y
    ensures Reported(o, ts, j) == Some(x) <==>
            exists v :: LoudestIs(o, ts[j], x, v) && ts[j].now - ts[i].now >= o.holdTime && v > u * o.margin
  {
    hide *;
    ReignBefore(o, ts, j, y, i, u, m);
    ReportedStep(o, ts, j);
    StepTakeover(o, After(o, ts[..j]), ts[j], x);
  }

  /** The state a reign leaves behind. */
  lemma ReignBefore(o: Options, ts: seq<Tick>, j: nat, y: Id, i: nat, u: real, m: nat)
    requires j < |ts| && Reigns(o, ts, y, i, j) && LastHeard(o, ts, y, u, m, j)
    ensures var s := After(o, ts[..j]); s.active == Some(y) && s.since == ts[i].now && s.level == u
  {
    assert Reported(o, ts, j - 1) == Some(y);
    ReportedStep(o, ts, j);
    hide After, Reported, LastHeard;
    var y', u', i', m' := ReignExists(o, ts, j);
    hide Reigns;
    ReignUnique(o, ts, y, i, i', u, u', m, m', j);
  }

  lemma StepTakeover(o: Options, s: State, t: Tick, x: Id)
    requires s.active.Some? && s.active != Some(x)
    ensures Step(o, s, t).active == Some(x) <==>
            exists v :: LoudestIs(o, t, x, v) && t.now - s.since >= o.holdTime && v > s.level * o.margin
  {
    var who := Speaker(o, t.levels);
    forall v ensures LoudestIs(o, t, x, v) <==> who == Some((x, v)) { SpeakerExact(o, t, x, v); }
    hide LoudestIs, Speaker;
    if who.Some? && who.value.0 == x { assert LoudestIs(o, t, x, who.value.1); }
  }

  lemma StepDrop(o: Options, s: State, t: Tick)
    requires s.active.Some?
    ensures Step(o, s, t).active == None <==> Speaker(o, t.levels) == None && s.silence != 0 && t.now - s.silence > o.holdTime
  {
  }

  /** The silence being timed began at the first silent tick since the speaker was last heard. */
  lemma {:induction false} SilenceTimed(o: Options, ts: seq<Tick>, y: Id, m: nat, j: nat)
    requires Clocked(ts) && m < j <= |ts| && Reported(o, ts, j - 1) == Some(y)
    requires Speaker(o, ts[m].levels).Some? && Speaker(o, ts[m].levels).value.0 == y
    requires forall k | m < k < j :: Speaker(o, ts[k].levels).Some? ==> Speaker(o, ts[k].levels).value.0 != y
    ensures var s := After(o, ts[..j]).silence;
            && (s == 0 <==> forall k | m < k < j :: Speaker(o, ts[k].levels).Some?)
            && (s != 0 ==> exists k | m < k < j :: Speaker(o, ts[k].levels).None? && ts[k].now == s)
            && (forall k | m < k < j && Speaker(o, ts[k].levels).None? :: s <= ts[k].now)
    decreases j
  {
    var n := j - 1;
    assert ts[..j][..n] == ts[..n];
    assert ts[..n + 1] == ts[..j];
    if m < n {
      ReportedStep(o, ts, n);
      SilenceTimed(o, ts, y, m, n);
    }
  }

  /**
   The speaker is dropped exactly when nobody is heard and nobody was at some tick more than holdTime ago,
   since it was last the loudest.
   */
  lemma DroppedExactly(o: Options, ts: seq<Tick>, j: nat, y: Id, u: real, m: nat)
    requires Clocked(ts) && 0 < j < |ts| && Reported(o, ts, j - 1) == Some(y) && LastHeard(o, ts, y, u, m, j)
    ensures Reported(o, ts, j) == None <==>
            Silent(o, ts[j]) && exists k | m < k < j :: Silent(o, ts[k]) && ts[j].now - ts[k].now > o.holdTime
  {
    ReportedStep(o, ts, j);
    StepDrop(o, After(o, ts[..j]), ts[j]);
    SpeakerExact(o, ts[m], y, u);
    forall k | 0 <= k <= j ensures Silent(o, ts[k]) <==> Speaker(o, ts[k].levels) == None { SpeakerExact(o, ts[k], y, u); }
    forall k, v | m < k < j && Speaker(o, ts[k].levels) == Some((y, v)) ensures false { SpeakerExact(o, ts[k], y, v); }
    hide After, Step, Reported, LastHeard, Silent, Speaker;
    SilenceTimed(o, ts, y, m, j);
  }

  // ----- The detector -----

  class ActiveSpeakerDetector {
    const options: Options
    var state: State
    ghost var ticks: seq<Tick>

    /** The state is what the ticks since the last reset lead to. */
    ghost predicate Valid()
      reads this
    {
      state == After(options, ticks)
    }

    constructor (o: Options)
      ensures Valid() && options == o && ticks == []
    {
      options, state, ticks := o, QUIET, [];
    }

    method FindLoudest(levels: seq<(Id, real)>) returns (loudest: Option<(Id, real)>)
      ensures loudest == Loudest(options, levels)
    {
      loudest := None;
      var loudestLevel := 0.0;
      for k := 0 to |levels|
        invariant loudest == Loudest(options, levels[..k])
        invariant loudestLevel == if loudest.Some? then loudest.value.1 else 0.0
      {
        assert levels[..k + 1][..k] == levels[..k];
        if levels[k].1 > loudestLevel && levels[k].1 >= options.threshold {
          loudest, loudestLevel := Some(levels[k]), levels[k].1;
        }
      }
      assert levels[..|levels|] == levels;
    }

    method Detect(now: Millis, levels: seq<(Id, real)>) returns (speaker: Option<Id>)
      requires Valid()
      modifies this
      ensures Valid() && ticks == old(ticks) + [Tick(now, levels)] && speaker == Reported(options, ticks, |ticks| - 1)
    {
      ghost var t := Tick(now, levels);
      assert (ticks + [t])[..|ticks|] == ticks && (ticks + [t])[..|ticks| + 1] == ticks + [t];
      ticks := ticks + [t];
      var found := FindLoudest(levels);
      if found.None? || found.value.0 == "" {
        if state.active.Some? {
          if state.silence == 0 {
            state := state.(silence := now);
          } else if now - state.silence > options.holdTime {
            state := QUIET;
          }
        }
        return state.active;
      }
      var id, level := found.value.0, found.value.1;
      if state.active.None? || state.active == Some(id) {
        if state.active != Some(id) {
          state := State(Some(id), now, level, 0);
        } else {
          state := state.(level := level, silence := 0);
        }
        return state.active;
      }
      if now - state.since < options.holdTime { return state.active; }
      if level > state.level * options.margin {
        state := State(Some(id), now, level, 0);
      }
      speaker := state.active;
    }

    method Reset()
      modifies this
      ensures Valid() && ticks == []
    {
      state, ticks := QUIET, [];
    }
  }
}
