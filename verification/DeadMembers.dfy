/**
 Members whose socket is gone. An admission does not look at the socket again after the credential wait,
 so a socket that disconnects during the wait becomes a member that no disconnect will ever remove. This
 module says exactly which members are such, and that they alone come between a client that reconnects
 only after a drop and the agreement of the rosters.
 */
module DeadMembers {
  import opened Common
  import opened PresenceModel
  import opened PresenceTheorems
  import opened RosterTheorems

  /**
   What happened to sockets so far: those that dropped, the joins that were waiting when their socket
   dropped and still are, and the members that such a join admitted.
   */
  datatype History = History(dropped: set<SocketId>, stranded: set<Ticket>, late: set<SocketId>)

  const NOTHING := History({}, {}, {})

  predicate Admits(w: World, e: Event) {
    e.Commit? && e.credential.Some? && Key(e.credential.value.room, e.credential.value.user) !in w.kicked
  }

  ghost function Note(w: World, h: History, e: Event): History
    requires Possible(w, e)
  {
    var present := Step(w, e).members.Keys;
    match e
    case DropSocket(c) =>
      History(h.dropped + {c}, h.stranded + (set t | t in w.pending && w.pending[t].socket == c), h.late * present)
    case Commit(t, _) =>
      History(h.dropped, h.stranded - {t},
              (if Admits(w, e) && t in h.stranded then h.late + {w.pending[t].socket} else h.late) * present)
    case _ => h.(late := h.late * present)
  }

  /** A connection that dropped asks for nothing any more. */
  predicate Fresh(h: History, e: Event) { e.Begin? ==> e.request.socket !in h.dropped }

  ghost predicate FreshRun(w: World, h: History, es: seq<Event>)
    requires PossibleRun(w, es)
    decreases |es|
  {
    es == [] || (Fresh(h, es[0]) && FreshRun(Step(w, es[0]), Note(w, h, es[0]), es[1..]))
  }

  ghost function Noted(w: World, h: History, es: seq<Event>): History
    requires PossibleRun(w, es)
    decreases |es|
  {
    if es == [] then h else Noted(Step(w, es[0]), Note(w, h, es[0]), es[1..])
  }

  /** The waiting joins of dropped sockets are the stranded ones, and the members without a socket the late ones. */
  ghost predicate Traced(w: World, h: History) {
    && h.stranded == (set t | t in w.pending && w.pending[t].socket in h.dropped)
    && h.late == w.members.Keys * h.dropped
  }

  lemma CommitTraced(w: World, h: History, e: Event)
    requires Traced(w, h) && Possible(w, e) && e.Commit?
    ensures Traced(Step(w, e), Note(w, h, e))
  {
    hide Admit;
    var c := w.pending[e.ticket].socket;
    if Admits(w, e) {
      var w1 := w.(pending := w.pending - {e.ticket});
      AdmitArrival(w1, c, e.credential.value, w.pending[e.ticket].slug);
      StepIsAdmission(w, e);
      hide Step, Possible;
      assert Step(w, e).members.Keys == w.members.Keys + {c};
    } else {
      if e.credential.Some? {
        AdmitArrival(w.(pending := w.pending - {e.ticket}), c, e.credential.value, w.pending[e.ticket].slug);
      }
      assert Step(w, e).members == w.members && Step(w, e).pending == w.pending - {e.ticket};
      hide Step, Possible;
    }
  }

  lemma FewerTraced(w: World, h: History, w': World)
    requires Traced(w, h) && NoArrival(w, w')
    ensures Traced(w', h.(late := h.late * w'.members.Keys))
  {
  }

  lemma DropTraced(w: World, h: History, c: SocketId)
    requires Traced(w, h)
    ensures Traced(Step(w, DropSocket(c)), Note(w, h, DropSocket(c)))
  {
    assert Step(w, DropSocket(c)).members == w.members - {c} && Step(w, DropSocket(c)).pending == w.pending;
    hide Step, Possible;
  }

  lemma StepTraced(w: World, h: History, e: Event)
    requires Traced(w, h) && Possible(w, e) && Fresh(h, e)
    ensures Traced(Step(w, e), Note(w, h, e))
  {
    match e
    case Begin(_, _) => hide Depart, Expire, Kick, EndRoom, Lock, Drop, Admit;
    case Commit(_, _) => CommitTraced(w, h, e);
    case DropSocket(c) => DropTraced(w, h, c);
    case _ =>
      StepNoArrival(w, e);
      hide Step, Possible, Traced;
      FewerTraced(w, h, Step(w, e));
  }

  /**
   Over all runs in which no socket begins a join after its drop: a member's socket is gone if and only if
   it dropped while a join of it was waiting and that join has been admitted since.
   */
  lemma {:induction false} DeadMembersExactly(w: World, h: History, es: seq<Event>)
    requires Traced(w, h) && PossibleRun(w, es) && FreshRun(w, h, es)
    ensures Traced(Run(w, es), Noted(w, h, es))
    ensures forall c | c in Run(w, es).members :: c in Noted(w, h, es).dropped <==> c in Noted(w, h, es).late
    decreases |es|
  {
    if es != [] {
      StepTraced(w, h, es[0]);
      hide Step, Note;
      DeadMembersExactly(Step(w, es[0]), Note(w, h, es[0]), es[1..]);
    }
  }

  lemma NothingTraced()
    ensures Traced(EMPTY, NOTHING)
  {
  }

  // ----- A client that reconnects only after a drop -----

  ghost function OwnSockets(w: World, e: Event): set<SocketId>
    requires Admits(w, e)
  {
    UserSockets(w.members, Key(e.credential.value.room, e.credential.value.user))
  }

  /** Of the joining socket and the member sockets of its user at most one is connected, and it joins once. */
  ghost predicate Orderly(w: World, h: History, e: Event)
    requires Possible(w, e)
  {
    Admits(w, e) ==>
      && w.pending[e.ticket].socket !in w.members
      && forall c, d | c in OwnSockets(w, e) + {w.pending[e.ticket].socket} && d in OwnSockets(w, e) && c != d ::
           c in h.dropped || d in h.dropped
  }

  /** No dead member is admitted beside another of its user, nor is another one beside it. */
  ghost predicate Undisturbed(w: World, h: History, e: Event) {
    Admits(w, e) ==> forall d | d in OwnSockets(w, e) :: d !in h.late && e.ticket !in h.stranded
  }

  ghost predicate OrderlyRun(w: World, h: History, es: seq<Event>)
    requires PossibleRun(w, es)
    decreases |es|
  {
    es == [] || (Fresh(h, es[0]) && Orderly(w, h, es[0]) && OrderlyRun(Step(w, es[0]), Note(w, h, es[0]), es[1..]))
  }

  ghost predicate UndisturbedRun(w: World, h: History, es: seq<Event>)
    requires PossibleRun(w, es)
    decreases |es|
  {
    es == [] || (Undisturbed(w, h, es[0]) && UndisturbedRun(Step(w, es[0]), Note(w, h, es[0]), es[1..]))
  }

  /** For such a client a second member socket appears exactly through a dead member. */
  lemma SecondSocketExactly(w: World, h: History, e: Event)
    requires Traced(w, h) && Possible(w, e) && Orderly(w, h, e)
    ensures SoleSocket(w, e) <==> Undisturbed(w, h, e)
  {
    hide Step;
    if Admits(w, e) && OwnSockets(w, e) != {} {
      var d :| d in OwnSockets(w, e);
      var c := w.pending[e.ticket].socket;
      assert c != d && (c in h.dropped || d in h.dropped);
    }
  }

  ghost predicate AgreeThroughout(w: World, es: seq<Event>)
    requires PossibleRun(w, es)
    decreases |es|
  {
    RostersAgree(w) && (es == [] || AgreeThroughout(Step(w, es[0]), es[1..]))
  }

  /** An admission breaks the agreement exactly when its user has a member socket already. */
  lemma StepAgreesExactly(w: World, e: Event)
    requires Coherent(w) && Possible(w, e) && SingleSeat(w) && RostersAgree(w)
    requires Admits(w, e) ==> w.pending[e.ticket].socket !in w.members
    ensures RostersAgree(Step(w, e)) <==> SoleSocket(w, e)
    ensures SoleSocket(w, e) ==> SingleSeat(Step(w, e))
  {
    hide Admit, RostersAgree, SingleSeat, Coherent, Step;
    if SoleSocket(w, e) {
      StepAgrees(w, e);
    } else {
      var w1 := w.(pending := w.pending - {e.ticket});
      SameAgreement(w, w1);
      StepIsAdmission(w, e);
      AdmissionAgreementExact(w1, w.pending[e.ticket].socket, e.credential.value, w.pending[e.ticket].slug);
    }
  }

  lemma StepIsAdmission(w: World, e: Event)
    requires Possible(w, e) && Admits(w, e)
    ensures Step(w, e) == Admit(w.(pending := w.pending - {e.ticket}), w.pending[e.ticket].socket, e.credential.value, w.pending[e.ticket].slug)
  {
    hide Admit;
  }

  /**
   For clients that reconnect only after a drop: all rosters agree throughout a run if and only if no dead
   member stands beside another member socket of its user.
   */
  lemma {:induction false} AgreementExactly(w: World, h: History, es: seq<Event>)
    requires Coherent(w) && SingleSeat(w) && RostersAgree(w) && Traced(w, h)
    requires PossibleRun(w, es) && OrderlyRun(w, h, es)
    ensures AgreeThroughout(w, es) <==> UndisturbedRun(w, h, es)
    decreases |es|
  {
    if es != [] {
      StepCoherent(w, es[0]);
      StepTraced(w, h, es[0]);
      SecondSocketExactly(w, h, es[0]);
      StepAgreesExactly(w, es[0]);
      hide Step, Coherent, SingleSeat, RostersAgree, SoleSocket, Traced, Undisturbed, Fresh, Note;
      if SoleSocket(w, es[0]) { AgreementExactly(Step(w, es[0]), Note(w, h, es[0]), es[1..]); }
    }
  }

  /** No join is admitted after its socket dropped. */
  ghost predicate PromptRun(w: World, h: History, es: seq<Event>)
    requires PossibleRun(w, es)
    decreases |es|
  {
    es == [] ||
    (!(Admits(w, es[0]) && es[0].ticket in h.stranded) && PromptRun(Step(w, es[0]), Note(w, h, es[0]), es[1..]))
  }

  /** Then every member is connected, and nothing disturbs the agreement. */
  lemma {:induction false} PromptUndisturbed(w: World, h: History, es: seq<Event>)
    requires h.late == {} && PossibleRun(w, es) && PromptRun(w, h, es)
    ensures Noted(w, h, es).late == {} && UndisturbedRun(w, h, es)
    decreases |es|
  {
    if es != [] {
      assert Note(w, h, es[0]).late == {} by { hide Step; }
      hide Step, Note;
      PromptUndisturbed(Step(w, es[0]), Note(w, h, es[0]), es[1..]);
    }
  }

  // ----- The run, and a kick in it -----

  lemma OrderlyCons(w: World, h: History, e: Event, es: seq<Event>)
    requires Possible(w, e) && Fresh(h, e) && Orderly(w, h, e)
    requires PossibleRun(Step(w, e), es) && OrderlyRun(Step(w, e), Note(w, h, e), es)
    ensures PossibleRun(w, [e] + es) && OrderlyRun(w, h, [e] + es)
    ensures Run(w, [e] + es) == Run(Step(w, e), es) && Noted(w, h, [e] + es) == Noted(Step(w, e), Note(w, h, e), es)
  {
    RunCons(w, e, es);
    assert ([e] + es)[1..] == es;
  }

  /** The first connection drops while its join waits, the join is admitted, and the user connects again. */
  function Reconnect(rec: Record): seq<Event> {
    [Begin(0, Request(1, rec.room, None))] + ([DropSocket(1)] + ([Commit(0, Some(rec))] + Again(rec)))
  }

  function Again(rec: Record): seq<Event> {
    [Begin(1, Request(2, rec.room, None))] + ([Commit(1, Some(rec))] + [])
  }

  /** The service with the dead member alone. */
  function Haunted(rec: Record): World { Admit(EMPTY, 1, rec, None) }

  const ONEDEAD := History({1}, {}, {1})

  lemma HauntedFields(rec: Record)
    ensures var w := Haunted(rec);
            && w.members == map[1 := rec] && w.pending == map[] && w.locked == {} && w.kicked == {} && w.seats == {}
  {
    hide Send, MembersOf;
  }

  lemma HauntedFacts(rec: Record)
    ensures SingleSeat(Haunted(rec)) && RostersAgree(Haunted(rec)) && Coherent(Haunted(rec))
  {
    assert SingleSeat(Haunted(rec)) by {
      HauntedFields(rec);
      hide Haunted;
    }
    var k := Key(rec.room, rec.user);
    EmptyIsSound(k);
    assert UserSockets(EMPTY.members, k) == {} && k !in EMPTY.kicked && 1 !in EMPTY.members;
    hide RostersAgree, Coherent, SingleSeat, Admit, UserSockets;
    AdmitCoherent(EMPTY, 1, rec, None);
    AdmissionAgreementExact(EMPTY, 1, rec, None);
  }

  lemma AgainDoubles(rec: Record)
    ensures var w := Haunted(rec); var end := Admit(w, 2, rec, None);
            && PossibleRun(w, Again(rec)) && OrderlyRun(w, ONEDEAD, Again(rec))
            && Run(w, Again(rec)) == end && Noted(w, ONEDEAD, Again(rec)) == ONEDEAD
            && end.members == map[1 := rec, 2 := rec] && !RostersAgree(end)
  {
    hide Admit, RostersAgree, SingleSeat, Coherent;
    var w, end := Haunted(rec), Admit(Haunted(rec), 2, rec, None);
    HauntedFields(rec);
    HauntedFacts(rec);
    hide Haunted;
    AdmissionAgreementExact(w, 2, rec, None);
    AdmitFacts(w, 2, rec, None);
    AdmitArrival(w, 2, rec, None);
    assert UserSockets(w.members, Key(rec.room, rec.user)) == {1};
    assert w.members[2 := rec] == map[1 := rec, 2 := rec];
    var e, f := Begin(1, Request(2, rec.room, None)), Commit(1, Some(rec));
    var v := w.(pending := map[1 := Request(2, rec.room, None)]);
    assert Step(w, e) == v && Note(w, ONEDEAD, e) == ONEDEAD by { assert {1} * w.members.Keys == {1}; }
    assert v.(pending := v.pending - {1}) == w;
    StepIsAdmission(v, f);
    assert Step(v, f) == end;
    assert Note(v, ONEDEAD, f) == ONEDEAD by { assert {1} * end.members.Keys == {1}; }
    assert Orderly(v, ONEDEAD, f);
    hide Step, Note, Orderly, Possible;
    OrderlyCons(v, ONEDEAD, f, []);
    OrderlyCons(w, ONEDEAD, e, [f] + []);
  }

  /**
   There are never two connected sockets, yet the user has two member records, the first of them dead, and
   the newer client is told that its own user is there.
   */
  lemma DeadMemberDoubles(rec: Record)
    ensures PossibleRun(EMPTY, Reconnect(rec)) && OrderlyRun(EMPTY, NOTHING, Reconnect(rec))
    ensures !SoleSocketRun(EMPTY, Reconnect(rec))
    ensures var end := Run(EMPTY, Reconnect(rec));
            end == Admit(Haunted(rec), 2, rec, None) && end.members == map[1 := rec, 2 := rec] && !RostersAgree(end)
    ensures Noted(EMPTY, NOTHING, Reconnect(rec)) == ONEDEAD
  {
    hide Admit, RostersAgree, SingleSeat, Coherent;
    var r := rec.room;
    var v := EMPTY.(pending := map[0 := Request(1, r, None)]);
    var a, b, c := Begin(0, Request(1, r, None)), DropSocket(1), Commit(0, Some(rec));
    var h := History({1}, {0}, {});
    HauntedFields(rec);
    assert Step(EMPTY, a) == v && Note(EMPTY, NOTHING, a) == NOTHING;
    assert Step(v, b) == v && Note(v, NOTHING, b) == h;
    assert v.(pending := v.pending - {0}) == EMPTY;
    StepIsAdmission(v, c);
    assert Note(v, h, c) == ONEDEAD by { assert {1} * Haunted(rec).members.Keys == {1}; }
    assert Orderly(v, h, c) && Possible(v, c);
    AgainDoubles(rec);
    hide Step, Note, Orderly, Possible, Haunted, Again;
    OrderlyCons(v, h, c, Again(rec));
    OrderlyCons(v, NOTHING, b, [c] + Again(rec));
    OrderlyCons(EMPTY, NOTHING, a, [b] + ([c] + Again(rec)));
    EmptyIsSound(Key(r, rec.user));
    if SoleSocketRun(EMPTY, Reconnect(rec)) { RosterAgreement(EMPTY, Reconnect(rec)); }
  }

  /** The host joins and kicks the user; the lookup finds the first of the two records. */
  function HostKicks(rec: Record, host: Record): seq<Event> {
    [Begin(2, Request(3, rec.room, None))] + ([Commit(2, Some(host))] + ([KickUser(3, rec.user, Some(1))] + []))
  }

  lemma HostRun(w: World, rec: Record, host: Record)
    requires host.room == rec.room && host.user != rec.user && host.canKick
    requires w.pending == map[] && w.locked == {} && w.kicked == {} && w.members == map[1 := rec, 2 := rec]
    ensures PossibleRun(w, HostKicks(rec, host))
    ensures Run(w, HostKicks(rec, host)) == Kick(Admit(w, 3, host, None), 3, Some(1))
  {
    hide Admit, Kick;
    var a, b, c := Begin(2, Request(3, rec.room, None)), Commit(2, Some(host)), KickUser(3, rec.user, Some(1));
    var v := w.(pending := map[2 := Request(3, rec.room, None)]);
    assert Step(w, a) == v;
    assert v.(pending := v.pending - {2}) == w;
    StepIsAdmission(v, b);
    AdmitArrival(w, 3, host, None);
    var u := Admit(w, 3, host, None);
    assert Possible(u, c);
    assert Step(u, c) == Kick(u, 3, Some(1));
    assert Possible(w, a) && Possible(v, b);
    hide Step, Possible;
    assert Run(Kick(u, 3, Some(1)), []) == Kick(u, 3, Some(1));
    RunCons(u, c, []);
    RunCons(v, b, [c] + []);
    RunCons(w, a, [b] + ([c] + []));
  }

  /** Continued so, the kick removes the dead record and leaves the connected user in the room. */
  lemma KickHitsDeadMember(rec: Record, host: Record)
    requires host.room == rec.room && host.user != rec.user && host.canKick
    ensures PossibleRun(EMPTY, Reconnect(rec)) && PossibleRun(Run(EMPTY, Reconnect(rec)), HostKicks(rec, host))
    ensures var end := Run(Run(EMPTY, Reconnect(rec)), HostKicks(rec, host));
            end.members == map[2 := rec, 3 := host] && Key(rec.room, rec.user) in end.kicked
  {
    DeadMemberDoubles(rec);
    TwiceFields(rec);
    var w := Run(EMPTY, Reconnect(rec));
    hide *;
    HostRun(w, rec, host);
    HostKickFields(w, rec, host);
  }

  lemma HostKickFields(w: World, rec: Record, host: Record)
    requires host.room == rec.room && host.user != rec.user && host.canKick
    requires w.kicked == {} && w.members == map[1 := rec, 2 := rec]
    ensures var u := Admit(w, 3, host, None); var end := Kick(u, 3, Some(1));
            end.members == map[2 := rec, 3 := host] && Key(rec.room, rec.user) in end.kicked
  {
    hide Admit, Kick;
    AdmitArrival(w, 3, host, None);
    var u := Admit(w, 3, host, None);
    assert u.members == map[1 := rec, 2 := rec, 3 := host];
    KickFields(u, 3, 1);
    assert u.members - {1} == map[2 := rec, 3 := host];
  }

  lemma TwiceFields(rec: Record)
    ensures var w := Admit(Haunted(rec), 2, rec, None);
            w.pending == map[] && w.locked == {} && w.kicked == {} && w.members == map[1 := rec, 2 := rec]
  {
    HauntedFields(rec);
    hide Haunted, Send, MembersOf;
  }

  lemma KickFields(w: World, requester: SocketId, target: SocketId)
    requires target in w.members && KickAck(w, requester, Some(target)).Done?
    requires w.members[target].room == w.members[requester].room
    ensures var w' := Kick(w, requester, Some(target));
            w'.members == w.members - {target} && Key(w.members[target].room, w.members[target].user) in w'.kicked
  {
    hide Send, SlugOf;
    var w1 := Marked(w, requester, target);
    assert requester in MembersOf(w1.(members := w1.members - {target}), w.members[target].room);
  }
}
