/**
 Theorems about whole runs of the presence machine: coherence of its indexes, conservation of
 the participant webhooks, and what a kick and a lock guarantee while joins are suspended.
 The agreement between every client's roster and the room is in RosterTheorems.dfy.
 */
module PresenceTheorems {
  import opened Common
  import opened PresenceModel

  // ----- Coherence: nothing outlives the room it belongs to -----

  ghost predicate Coherent(w: World) {
    && (forall c | c in w.members :: w.members[c].room in w.tracked)
    && (forall k | k in w.seats :: k.room in w.tracked)
    && w.locked <= w.tracked
    && (forall k | k in w.kicked :: k.room in w.tracked)
    && w.owners.Keys <= w.tracked
    && w.slugs.Keys <= w.tracked
    && (forall r | r in w.slugs :: w.slugs[r] != [])
    && (forall s | s in w.slugIndex :: w.slugIndex[s] in w.slugs && s in w.slugs[w.slugIndex[s]])
  }

  lemma CleanupCoherent(w: World, r: RoomId)
    requires Coherent(w)
    ensures Coherent(Cleanup(w, r))
  {
    if MembersOf(w, r) == {} && SeatUsers(w, r) == {} {
      forall c | c in w.members ensures w.members[c].room != r {
        assert c in MembersOf(w, w.members[c].room);
      }
      forall k | k in w.seats ensures k.room != r {
        assert k.user in SeatUsers(w, k.room);
      }
    }
  }

  lemma DepartCoherent(w: World, c: SocketId, reason: Reason)
    requires Coherent(w)
    ensures Coherent(Depart(w, c, reason))
  {
    if c in w.members {
      var m := w.members[c];
      CleanupCoherent(w.(members := w.members - {c},
                         inbox := Send(w.inbox, MembersOf(w.(members := w.members - {c}), m.room), PeerLeft(m.user)),
                         hooks := w.hooks + [ParticipantLeft(m.room, SlugOf(w, m.room), m.user, reason)]), m.room);
    }
  }

  lemma {:induction false} DepartAllCoherent(w: World, order: seq<SocketId>, reason: Reason)
    requires Coherent(w)
    ensures Coherent(DepartAll(w, order, reason))
    decreases |order|
  {
    if order != [] {
      DepartAllCoherent(w, order[..|order| - 1], reason);
      DepartCoherent(DepartAll(w, order[..|order| - 1], reason), order[|order| - 1], reason);
    }
  }

  lemma EndCoherent(w: World, r: RoomId, order: seq<SocketId>)
    requires Coherent(w)
    ensures Coherent(EndRoom(w, r, order))
  {
    var w1 := Lapse(w, r);
    assert Coherent(w1);
    hide Lapse;
    DepartAllCoherent(w1.(inbox := Send(w1.inbox, MembersOf(w, r), RoomClosed(r))), order, RoomEnd);
    hide DepartAll;
  }

  lemma ExpireCoherent(w: World, k: Key)
    requires Coherent(w)
    ensures Coherent(Expire(w, k))
  {
    if k in w.seats {
      var w1 := w.(seats := w.seats - {k});
      CleanupCoherent(w1.(inbox := Send(w.inbox, MembersOf(w1, k.room), PeerLeft(k.user)),
                          hooks := w.hooks + [ParticipantLeft(k.room, SlugOf(w1, k.room), k.user, Disconnected)]), k.room);
    }
  }

  lemma AdmitCoherent(w: World, c: SocketId, rec: Record, slug: Option<Slug>)
    requires Coherent(w)
    ensures Coherent(Admit(w, c, rec, slug))
  {
    hide Send, MembersOf;
  }

  /** The world a successful kick hands to the departure flow. */
  function Marked(w: World, requester: SocketId, target: SocketId): World
    requires requester in w.members && target in w.members
  {
    w.(kicked := w.kicked + {Key(w.members[requester].room, w.members[target].user)},
       inbox := Send(w.inbox, {target}, KickedOut(w.members[requester].room)))
  }

  lemma KickCoherent(w: World, requester: SocketId, target: Option<SocketId>)
    requires Coherent(w) && (target.Some? ==> target.value in w.members)
    ensures Coherent(Kick(w, requester, target))
  {
    if KickAck(w, requester, target).Done? {
      assert Kick(w, requester, target) == Depart(Marked(w, requester, target.value), target.value, WasKicked);
      hide Depart, Kick;
      DepartCoherent(Marked(w, requester, target.value), target.value, WasKicked);
    }
  }

  lemma StepCoherent(w: World, e: Event)
    requires Coherent(w) && Possible(w, e)
    ensures Coherent(Step(w, e))
  {
    hide Depart, Expire, Kick, EndRoom, Admit, Send, Lock;
    match e
    case Commit(ticket, cred) =>
      if cred.Some? {
        AdmitCoherent(w.(pending := w.pending - {ticket}), w.pending[ticket].socket, cred.value, w.pending[ticket].slug);
      }
    case Leave(socket, reason) => DepartCoherent(w, socket, reason);
    case SeatExpires(key) => ExpireCoherent(w, key);
    case KickUser(requester, user, target) => KickCoherent(w, requester, target);
    case SetLock(requester, on) => LockCoherent(w, requester, on);
    case End(room, order) => EndCoherent(w, room, order);
    case _ =>
  }

  lemma LockCoherent(w: World, requester: SocketId, on: bool)
    requires Coherent(w)
    ensures Coherent(Lock(w, requester, on))
  {
  }

  /** In every reachable state every lock, kick, owner, slug, seat and member belongs to a tracked room. */
  lemma {:induction false} AlwaysCoherent(w: World, es: seq<Event>)
    requires Coherent(w) && PossibleRun(w, es)
    ensures Coherent(Run(w, es))
    decreases |es|
  {
    if es != [] {
      StepCoherent(w, es[0]);
      hide Step, Coherent;
      AlwaysCoherent(Step(w, es[0]), es[1..]);
    }
  }

  // ----- What each operation does to the fields the theorems read -----

  lemma DepartFacts(w: World, c: SocketId, reason: Reason)
    requires c in w.members
    ensures var w' := Depart(w, c, reason); var m := w.members[c];
            && w'.members == w.members - {c} && w'.seats == w.seats && w'.silent == w.silent && w'.replaced == w.replaced
            && w'.pending == w.pending && w'.heldAtJoin == w.heldAtJoin
            && w'.hooks == w.hooks + [ParticipantLeft(m.room, SlugOf(w, m.room), m.user, reason)]
            && w'.inbox == Send(w.inbox, MembersOf(w.(members := w.members - {c}), m.room), PeerLeft(m.user))
  {
    hide Send;
  }

  lemma ExpireFacts(w: World, k: Key)
    requires k in w.seats && k.room in w.tracked
    ensures var w' := Expire(w, k);
            && w'.members == w.members && w'.seats == w.seats - {k} && w'.silent == w.silent && w'.replaced == w.replaced
            && w'.pending == w.pending && w'.heldAtJoin == w.heldAtJoin
            && w'.hooks == w.hooks + [ParticipantLeft(k.room, SlugOf(w, k.room), k.user, Disconnected)]
            && w'.inbox == Send(w.inbox, MembersOf(w, k.room), PeerLeft(k.user))
  {
    var w1 := w.(seats := w.seats - {k});
    assert MembersOf(w1, k.room) == MembersOf(w, k.room) && SlugOf(w1, k.room) == SlugOf(w, k.room);
    hide Send, MembersOf, SeatUsers, SlugOf;
  }

  /** No member, and no grace seat other than the joiner's own. */
  ghost predicate OpensRoom(w: World, own: Key) {
    && (forall c | c in w.members :: w.members[c].room != own.room)
    && (forall q | q in w.seats && q.room == own.room :: q == own)
  }

  /** room.started fires at an admission exactly when the joiner finds the room without anyone else. */
  lemma AdmitFacts(w: World, c: SocketId, rec: Record, slug: Option<Slug>)
    requires Key(rec.room, rec.user) !in w.kicked
    ensures var w' := Admit(w, c, rec, slug); var own := Key(rec.room, rec.user);
            && w'.replaced == w.replaced + ReplacedBy(w, c)
            && w'.members == w.members[c := rec] && w'.seats == w.seats - {own} && w'.silent == w.silent
            && w'.hooks == (if OpensRoom(w, own) then w.hooks + [RoomStarted(rec.room, slug)] else w.hooks)
                         + (if own in w.seats then [] else [ParticipantJoined(rec.room, slug, rec.user)])
  {
    hide Send;
    var own := Key(rec.room, rec.user);
    var held := set q | q in w.seats - {own} && q.room == rec.room :: q.user;
    assert (MembersOf(w, rec.room) == {} && held == {}) == OpensRoom(w, own) by {
      forall c | c in w.members && w.members[c].room == rec.room ensures c in MembersOf(w, rec.room) {}
      forall q | q in w.seats && q.room == rec.room && q != own ensures q.user in held {
        assert q in w.seats - {own};
      }
    }
  }

  /**
   Restoring a seat emits no participant.joined, and room.started again exactly when the joiner is the
   room's sole occupant, although that seat had kept the room alive.
   */
  lemma RestoreReopens(w: World, c: SocketId, rec: Record, slug: Option<Slug>)
    requires Key(rec.room, rec.user) !in w.kicked && Key(rec.room, rec.user) in w.seats
    ensures Admit(w, c, rec, slug).hooks ==
            w.hooks + (if Present(w, rec.room) == {rec.user} && MembersOf(w, rec.room) == {} then [RoomStarted(rec.room, slug)] else [])
  {
    AdmitFacts(w, c, rec, slug);
    hide Admit;
    var own := Key(rec.room, rec.user);
    assert rec.user in SeatUsers(w, rec.room);
    assert OpensRoom(w, own) <==> Present(w, rec.room) == {rec.user} && MembersOf(w, rec.room) == {} by {
      if OpensRoom(w, own) {
        assert MemberUsers(w, rec.room) == {} && SeatUsers(w, rec.room) == {rec.user};
      }
      if Present(w, rec.room) == {rec.user} && MembersOf(w, rec.room) == {} {
        forall c' | c' in w.members ensures w.members[c'].room != rec.room { assert c' !in MembersOf(w, rec.room); }
        forall q | q in w.seats && q.room == rec.room ensures q == own { assert q.user in Present(w, rec.room); }
      }
    }
  }

  // ----- Conservation of participant webhooks -----

  function Joins(hooks: seq<Hook>, k: Key): nat {
    if hooks == [] then 0
    else Joins(hooks[..|hooks| - 1], k)
         + (match hooks[|hooks| - 1] case ParticipantJoined(r, _, u) => if Key(r, u) == k then 1 else 0 case _ => 0)
  }

  function Leaves(hooks: seq<Hook>, k: Key): nat {
    if hooks == [] then 0
    else Leaves(hooks[..|hooks| - 1], k)
         + (match hooks[|hooks| - 1] case ParticipantLeft(r, _, u, _) => if Key(r, u) == k then 1 else 0 case _ => 0)
  }

  /** Member sockets of one user in one room. */
  function UserSockets(members: map<SocketId, Record>, k: Key): set<SocketId> {
    set c | c in members && Key(members[c].room, members[c].user) == k
  }

  ghost predicate Balanced(w: World, k: Key) {
    Joins(w.hooks, k) == Leaves(w.hooks, k) + |UserSockets(w.members, k)| + (if k in w.seats then 1 else 0) + w.silent[k]
      + w.replaced[k]
  }

  lemma HookAppended(hooks: seq<Hook>, h: Hook, k: Key)
    ensures Joins(hooks + [h], k) == Joins(hooks, k) + (if h.ParticipantJoined? && Key(h.room, h.user) == k then 1 else 0)
    ensures Leaves(hooks + [h], k) == Leaves(hooks, k) + (if h.ParticipantLeft? && Key(h.room, h.user) == k then 1 else 0)
  {
    assert (hooks + [h])[..|hooks|] == hooks;
  }

  lemma SocketRemoved(members: map<SocketId, Record>, c: SocketId, k: Key)
    requires c in members
    ensures |UserSockets(members, k)|
         == |UserSockets(members - {c}, k)| + (if Key(members[c].room, members[c].user) == k then 1 else 0)
  {
    if Key(members[c].room, members[c].user) == k {
      assert UserSockets(members, k) == UserSockets(members - {c}, k) + {c};
    } else {
      assert UserSockets(members, k) == UserSockets(members - {c}, k);
    }
  }

  lemma DepartBalanced(w: World, c: SocketId, reason: Reason, k: Key)
    requires Balanced(w, k)
    ensures Balanced(Depart(w, c, reason), k)
  {
    if c in w.members {
      var m := w.members[c];
      DepartFacts(w, c, reason);
      SocketRemoved(w.members, c, k);
      HookAppended(w.hooks, ParticipantLeft(m.room, SlugOf(w, m.room), m.user, reason), k);
      hide Depart, Joins, Leaves, SlugOf, UserSockets, Send;
    }
  }

  lemma {:induction false} DepartAllBalanced(w: World, order: seq<SocketId>, reason: Reason, k: Key)
    requires Balanced(w, k)
    ensures Balanced(DepartAll(w, order, reason), k)
    decreases |order|
  {
    if order != [] {
      DepartAllBalanced(w, order[..|order| - 1], reason, k);
      hide Balanced, Depart;
      DepartBalanced(DepartAll(w, order[..|order| - 1], reason), order[|order| - 1], reason, k);
    }
  }

  lemma AdmitBalanced(w: World, c: SocketId, rec: Record, slug: Option<Slug>, k: Key)
    requires Balanced(w, k)
    ensures Balanced(Admit(w, c, rec, slug), k)
  {
    hide Joins, Leaves, UserSockets, OpensRoom;
    var own := Key(rec.room, rec.user);
    if own !in w.kicked {
      AdmitFacts(w, c, rec, slug);
      var w' := Admit(w, c, rec, slug);
      hide Admit;
      assert w'.members - {c} == w.members - {c};
      SocketRemoved(w'.members, c, k);
      if c in w.members { SocketRemoved(w.members, c, k); } else { assert w.members - {c} == w.members; }
      HookAppended(w.hooks, RoomStarted(rec.room, slug), k);
      var started := if OpensRoom(w, own) then w.hooks + [RoomStarted(rec.room, slug)] else w.hooks;
      HookAppended(started, ParticipantJoined(rec.room, slug, rec.user), k);
      assert started + [] == started;
    }
  }

  lemma ExpireBalanced(w: World, q: Key, k: Key)
    requires Coherent(w) && Balanced(w, k)
    ensures Balanced(Expire(w, q), k)
  {
    if q in w.seats {
      ExpireFacts(w, q);
      hide Expire, Coherent, UserSockets;
      HookAppended(w.hooks, ParticipantLeft(q.room, SlugOf(w, q.room), q.user, Disconnected), k);
      hide Joins, Leaves;
    }
  }

  lemma KickBalanced(w: World, requester: SocketId, target: Option<SocketId>, k: Key)
    requires Balanced(w, k) && (target.Some? ==> target.value in w.members)
    ensures Balanced(Kick(w, requester, target), k)
  {
    if KickAck(w, requester, target).Done? {
      assert Kick(w, requester, target) == Depart(Marked(w, requester, target.value), target.value, WasKicked);
      hide Depart, Kick;
      DepartBalanced(Marked(w, requester, target.value), target.value, WasKicked, k);
    }
  }

  lemma EndBalanced(w: World, r: RoomId, order: seq<SocketId>, k: Key)
    requires Balanced(w, k)
    ensures Balanced(EndRoom(w, r, order), k)
  {
    hide UserSockets;
    var w1 := Lapse(w, r);
    assert Balanced(w1, k);
    var w2 := w1.(inbox := Send(w1.inbox, MembersOf(w, r), RoomClosed(r)));
    assert Balanced(w2, k);
    DepartAllBalanced(w2, order, RoomEnd, k);
    var w3 := if order == [] then w1 else DepartAll(w2, order, RoomEnd);
    assert EndRoom(w, r, order) == w3.(hooks := w3.hooks + [RoomEnded(r, SlugOf(w, r))]);
    hide EndRoom, DepartAll, Lapse;
    HookAppended(w3.hooks, RoomEnded(r, SlugOf(w, r)), k);
  }

  lemma StepBalanced(w: World, e: Event, k: Key)
    requires Coherent(w) && Possible(w, e) && Balanced(w, k)
    ensures Balanced(Step(w, e), k)
  {
    hide Coherent, Joins, Leaves, Depart, Expire, Kick, EndRoom, Admit, Send, UserSockets;
    match e
    case Commit(ticket, cred) =>
      if cred.Some? {
        AdmitBalanced(w.(pending := w.pending - {ticket}), w.pending[ticket].socket, cred.value, w.pending[ticket].slug, k);
      }
    case Leave(socket, reason) => DepartBalanced(w, socket, reason, k);
    case DropSocket(c) => if c in w.members { SocketRemoved(w.members, c, k); }
    case SeatExpires(q) => ExpireBalanced(w, q, k);
    case KickUser(requester, user, target) => KickBalanced(w, requester, target, k);
    case End(r, order) => EndBalanced(w, r, order, k);
    case _ =>
  }

  /**
   participant.joined minus participant.left of one user in one room is the number of the user's
   member sockets plus its grace seat, plus the seats that ended silently and the records a repeated
   join overwrote. One member socket per user is not assumed.
   */
  lemma {:induction false} WebhooksConserved(w: World, es: seq<Event>, k: Key)
    requires Coherent(w) && PossibleRun(w, es) && Balanced(w, k)
    ensures Balanced(Run(w, es), k)
    decreases |es|
  {
    if es != [] {
      StepCoherent(w, es[0]);
      StepBalanced(w, es[0], k);
      hide Step, Coherent, Balanced;
      WebhooksConserved(Step(w, es[0]), es[1..], k);
    }
  }

  // ----- When a tracked room may be empty -----

  /** Every tracked room has a member or a grace seat. */
  ghost predicate NoneVacant(w: World) {
    forall r | r in w.tracked :: MembersOf(w, r) != {} || SeatUsers(w, r) != {}
  }

  lemma DepartNoneVacant(w: World, c: SocketId, reason: Reason)
    requires NoneVacant(w)
    ensures NoneVacant(Depart(w, c, reason))
  {
    if c in w.members {
      var m := w.members[c];
      var w' := Depart(w, c, reason);
      DepartFacts(w, c, reason);
      forall r | r in w'.tracked ensures MembersOf(w', r) != {} || SeatUsers(w', r) != {} {
        hide Send, SlugOf;
        var w1 := w.(members := w.members - {c});
        assert SeatUsers(w', r) == SeatUsers(w, r) && MembersOf(w', r) == MembersOf(w1, r);
        if r != m.room {
          assert MembersOf(w1, r) == MembersOf(w, r);
        }
      }
    }
  }

  lemma {:induction false} DepartAllNoneVacant(w: World, order: seq<SocketId>, reason: Reason)
    requires NoneVacant(w)
    ensures NoneVacant(DepartAll(w, order, reason))
    decreases |order|
  {
    if order != [] {
      DepartAllNoneVacant(w, order[..|order| - 1], reason);
      hide NoneVacant, Depart;
      DepartNoneVacant(DepartAll(w, order[..|order| - 1], reason), order[|order| - 1], reason);
    }
  }

  lemma ExpireNoneVacant(w: World, k: Key)
    requires Coherent(w) && NoneVacant(w)
    ensures NoneVacant(Expire(w, k))
  {
    if k in w.seats {
      var w' := Expire(w, k);
      ExpireFacts(w, k);
      forall r | r in w'.tracked ensures MembersOf(w', r) != {} || SeatUsers(w', r) != {} {
        hide Send, SlugOf, Coherent;
        var w1 := w.(seats := w.seats - {k});
        assert SeatUsers(w', r) == SeatUsers(w1, r) && MembersOf(w', r) == MembersOf(w, r);
        if r != k.room {
          assert SeatUsers(w1, r) == SeatUsers(w, r);
        }
      }
    }
  }

  lemma DropNoneVacant(w: World, c: SocketId)
    requires NoneVacant(w)
    ensures NoneVacant(Drop(w, c))
  {
    if c in w.members {
      var w' := Drop(w, c);
      var k := Key(w.members[c].room, w.members[c].user);
      forall r | r in w'.tracked ensures MembersOf(w', r) != {} || SeatUsers(w', r) != {} {
        if r == k.room {
          assert k.user in SeatUsers(w', r);
        } else {
          assert MembersOf(w', r) == MembersOf(w, r) && SeatUsers(w, r) <= SeatUsers(w', r);
        }
      }
    }
  }

  lemma AdmitNoneVacant(w: World, c: SocketId, rec: Record, slug: Option<Slug>)
    requires Coherent(w) && NoneVacant(w) && (c in w.members ==> w.members[c].room == rec.room)
    ensures NoneVacant(Admit(w, c, rec, slug))
  {
    var own := Key(rec.room, rec.user);
    if own !in w.kicked {
      hide Coherent, OpensRoom, Send, AddSlug;
      var w' := Admit(w, c, rec, slug);
      assert w'.members == w.members[c := rec] && w'.seats == w.seats - {own} && w'.tracked == w.tracked + {rec.room};
      hide Admit;
      forall r | r in w'.tracked ensures MembersOf(w', r) != {} || SeatUsers(w', r) != {} {
        if r == rec.room {
          assert c in MembersOf(w', r);
        } else {
          assert MembersOf(w', r) == MembersOf(w, r);
          assert SeatUsers(w', r) == SeatUsers(w, r);
        }
      }
    }
  }

  /**
   Ending a room that only grace seats keep alive leaves it tracked and empty, with its owner and
   slugs; the next lifetime starts on top of them. With members present the room is gone.
   */
  lemma EndVacancy(w: World, r: RoomId, order: seq<SocketId>)
    requires NoneVacant(w) && Enumerates(order, MembersOf(w, r))
    ensures NoneVacant(EndRoom(w, r, order)) <==> !(r in w.tracked && MembersOf(w, r) == {})
    ensures !NoneVacant(EndRoom(w, r, order)) ==>
              var w' := EndRoom(w, r, order); w'.tracked == w.tracked && w'.owners == w.owners && w'.slugs == w.slugs
  {
    var w1 := Lapse(w, r);
    forall q ensures MembersOf(w1, q) == MembersOf(w, q) && (q != r ==> SeatUsers(w1, q) == SeatUsers(w, q)) {}
    assert SeatUsers(w1, r) == {};
    var w' := EndRoom(w, r, order);
    if order == [] {
      assert forall c | c in MembersOf(w, r) :: c in order;
      assert MembersOf(w, r) == {};
      assert w'.members == w1.members && w'.seats == w1.seats && w'.tracked == w.tracked;
      forall q ensures MembersOf(w', q) == MembersOf(w1, q) && SeatUsers(w', q) == SeatUsers(w1, q) {}
      hide EndRoom, Lapse;
    } else {
      assert order[0] in MembersOf(w, r);
      var w2 := w1.(inbox := Send(w1.inbox, MembersOf(w, r), RoomClosed(r)));
      forall q ensures MembersOf(w2, q) == MembersOf(w1, q) && SeatUsers(w2, q) == SeatUsers(w1, q) {}
      assert NoneVacant(w2) by { hide Lapse, EndRoom, Send; assert w2.tracked == w.tracked by { assert w1.tracked == w.tracked; } }
      DepartAllNoneVacant(w2, order, RoomEnd);
      var w3 := DepartAll(w2, order, RoomEnd);
      assert w' == w3.(hooks := w3.hooks + [RoomEnded(r, SlugOf(w, r))]);
      hide EndRoom, Lapse, DepartAll, Send;
      forall q ensures MembersOf(w', q) == MembersOf(w3, q) && SeatUsers(w', q) == SeatUsers(w3, q) {}
    }
  }

  lemma KickNoneVacant(w: World, requester: SocketId, target: Option<SocketId>)
    requires NoneVacant(w) && (target.Some? ==> target.value in w.members)
    ensures NoneVacant(Kick(w, requester, target))
  {
    if KickAck(w, requester, target).Done? {
      var w1 := Marked(w, requester, target.value);
      assert Kick(w, requester, target) == Depart(w1, target.value, WasKicked);
      forall q ensures MembersOf(w1, q) == MembersOf(w, q) && SeatUsers(w1, q) == SeatUsers(w, q) {}
      hide Depart, Kick;
      DepartNoneVacant(w1, target.value, WasKicked);
    }
  }

  lemma CoherentIgnoresPending(w: World, ticket: Ticket)
    requires Coherent(w)
    ensures Coherent(w.(pending := w.pending - {ticket}))
  {
  }

  lemma SameVacancy(w: World, w': World)
    requires w'.members == w.members && w'.seats == w.seats && w'.tracked == w.tracked
    ensures NoneVacant(w') <==> NoneVacant(w)
  {
    forall q ensures MembersOf(w', q) == MembersOf(w, q) && SeatUsers(w', q) == SeatUsers(w, q) {}
    hide MembersOf, SeatUsers;
  }

  lemma CommitVacancy(w: World, ticket: Ticket, cred: Option<Record>)
    requires Coherent(w) && NoneVacant(w) && Possible(w, Commit(ticket, cred))
    ensures NoneVacant(Step(w, Commit(ticket, cred)))
  {
    hide Admit, NoneVacant, Coherent;
    var w1 := w.(pending := w.pending - {ticket});
    SameVacancy(w, w1);
    CoherentIgnoresPending(w, ticket);
    if cred.Some? {
      AdmitNoneVacant(w1, w.pending[ticket].socket, cred.value, w.pending[ticket].slug);
    }
  }

  /** No other step ever leaves a tracked room empty. */
  lemma VacancyExact(w: World, e: Event)
    requires Coherent(w) && NoneVacant(w) && Possible(w, e)
    ensures NoneVacant(Step(w, e)) <==> !(e.End? && e.room in w.tracked && MembersOf(w, e.room) == {})
  {
    hide Depart, Expire, Kick, EndRoom, Drop, Send, NoneVacant, Coherent, Admit, MembersOf, SeatUsers;
    match e
    case Begin(_, _) => SameVacancy(w, Step(w, e));
    case Commit(ticket, cred) => CommitVacancy(w, ticket, cred);
    case Leave(socket, reason) => DepartNoneVacant(w, socket, reason);
    case DropSocket(socket) => DropNoneVacant(w, socket);
    case SeatExpires(key) => ExpireNoneVacant(w, key);
    case KickUser(requester, user, target) => KickNoneVacant(w, requester, target);
    case SetLock(requester, on) => SameVacancy(w, Step(w, e));
    case End(room, order) => EndVacancy(w, room, order);
  }

  // ----- Kicks are terminal for the lifetime of the room -----

  ghost predicate EndsLifetime(w: World, e: Event, r: RoomId)
    requires Possible(w, e)
  {
    (e.End? && e.room == r) || r !in Step(w, e).tracked
  }

  ghost predicate Lasts(w: World, es: seq<Event>, r: RoomId)
    requires PossibleRun(w, es)
    decreases |es|
  {
    es == [] || (!EndsLifetime(w, es[0], r) && Lasts(Step(w, es[0]), es[1..], r))
  }

  /** `w'` is a later state in which `k` is still kicked and has gained neither a socket nor a seat. */
  ghost predicate StillOut(w: World, w': World, k: Key) {
    && k in w'.kicked
    && UserSockets(w'.members, k) <= UserSockets(w.members, k)
    && (k in w'.seats ==> k in w.seats || UserSockets(w.members, k) != {})
  }

  lemma DepartStillOut(w: World, c: SocketId, reason: Reason, k: Key)
    requires k in w.kicked && k.room in Depart(w, c, reason).tracked
    ensures StillOut(w, Depart(w, c, reason), k)
  {
    hide Send;
  }

  lemma {:induction false} DepartAllStillOut(w: World, order: seq<SocketId>, reason: Reason, k: Key)
    requires k in w.kicked && k.room in DepartAll(w, order, reason).tracked
    ensures StillOut(w, DepartAll(w, order, reason), k)
    decreases |order|
  {
    if order != [] {
      var w1 := DepartAll(w, order[..|order| - 1], reason);
      assert Depart(w1, order[|order| - 1], reason).tracked <= w1.tracked by { hide Send; }
      hide Depart;
      DepartAllStillOut(w, order[..|order| - 1], reason, k);
      DepartStillOut(w1, order[|order| - 1], reason, k);
    }
  }

  lemma EndStillOut(w: World, r: RoomId, order: seq<SocketId>, k: Key)
    requires k in w.kicked && k.room != r && k.room in EndRoom(w, r, order).tracked
    ensures StillOut(w, EndRoom(w, r, order), k)
  {
    var w1 := Lapse(w, r);
    assert StillOut(w, w1, k);
    var w2 := w1.(inbox := Send(w1.inbox, MembersOf(w, r), RoomClosed(r)));
    var w3 := if order == [] then w1 else DepartAll(w2, order, RoomEnd);
    assert EndRoom(w, r, order) == w3.(hooks := w3.hooks + [RoomEnded(r, SlugOf(w, r))]);
    hide EndRoom, Lapse, Send;
    if order != [] { DepartAllStillOut(w2, order, RoomEnd, k); }
  }

  lemma KickStillOut(w: World, requester: SocketId, target: Option<SocketId>, k: Key)
    requires target.Some? ==> target.value in w.members
    requires k in w.kicked && k.room in Kick(w, requester, target).tracked
    ensures StillOut(w, Kick(w, requester, target), k)
  {
    if KickAck(w, requester, target).Done? {
      assert Kick(w, requester, target) == Depart(Marked(w, requester, target.value), target.value, WasKicked);
      hide Depart, Kick;
      DepartStillOut(Marked(w, requester, target.value), target.value, WasKicked, k);
    }
  }

  lemma CleanupStillOut(w: World, r: RoomId, k: Key)
    requires k in w.kicked && k.room in Cleanup(w, r).tracked
    ensures k in Cleanup(w, r).kicked
    ensures Cleanup(w, r).members == w.members && Cleanup(w, r).seats == w.seats
  {
    hide MembersOf, SeatUsers;
  }

  lemma ExpireStillOut(w: World, q: Key, k: Key)
    requires k in w.kicked && k.room in Expire(w, q).tracked
    ensures StillOut(w, Expire(w, q), k)
  {
    hide Send, MembersOf, SlugOf, UserSockets, Cleanup;
    if q in w.seats && q.room in w.tracked {
      var w1 := w.(seats := w.seats - {q});
      CleanupStillOut(w1.(inbox := Send(w.inbox, MembersOf(w1, q.room), PeerLeft(q.user)),
                          hooks := w.hooks + [ParticipantLeft(q.room, SlugOf(w1, q.room), q.user, Disconnected)]), q.room, k);
    }
  }

  /** The heart of kick terminality: admission re-checks the kick after the credential wait. */
  lemma AdmitStillOut(w: World, c: SocketId, rec: Record, slug: Option<Slug>, k: Key)
    requires k in w.kicked
    ensures StillOut(w, Admit(w, c, rec, slug), k)
  {
    hide Send, MembersOf;
  }

  lemma StepStillOut(w: World, e: Event, k: Key)
    requires Possible(w, e) && k in w.kicked && !EndsLifetime(w, e, k.room)
    ensures StillOut(w, Step(w, e), k)
  {
    hide Send, Depart, EndRoom, Expire, Kick, Admit, UserSockets, Drop, Lock;
    match e
    case Commit(ticket, cred) =>
      if cred.Some? {
        AdmitStillOut(w.(pending := w.pending - {ticket}), w.pending[ticket].socket, cred.value, w.pending[ticket].slug, k);
      }
    case Leave(socket, reason) => DepartStillOut(w, socket, reason, k);
    case DropSocket(socket) => DropStillOut(w, socket, k);
    case SeatExpires(q) => ExpireStillOut(w, q, k);
    case KickUser(requester, user, target) => KickStillOut(w, requester, target, k);
    case End(room, order) => EndStillOut(w, room, order, k);
    case SetLock(requester, on) => LockStillOut(w, requester, on, k);
    case Begin(_, _) =>
  }

  lemma LockStillOut(w: World, requester: SocketId, on: bool, k: Key)
    requires k in w.kicked
    ensures StillOut(w, Lock(w, requester, on), k)
  {
    hide Send, MembersOf, UserSockets;
  }

  lemma DropStillOut(w: World, c: SocketId, k: Key)
    requires k in w.kicked
    ensures StillOut(w, Drop(w, c), k)
  {
    if c in w.members && Key(w.members[c].room, w.members[c].user) == k {
      assert c in UserSockets(w.members, k);
    }
  }

  /** While the lifetime lasts, no suspended or new join of a kicked user commits and no seat comes back. */
  lemma {:induction false} KickLasts(w: World, es: seq<Event>, k: Key)
    requires PossibleRun(w, es) && Lasts(w, es, k.room) && k in w.kicked
    ensures StillOut(w, Run(w, es), k)
    decreases |es|
  {
    if es != [] {
      StepStillOut(w, es[0], k);
      hide Step, EndsLifetime, UserSockets;
      KickLasts(Step(w, es[0]), es[1..], k);
    }
  }

  /**
   The kick itself: the target is out, the requester is still a member, so the room and with it
   the kick survive.
   */
  lemma KickTakesEffect(w: World, requester: SocketId, target: SocketId)
    requires Coherent(w) && target in w.members && KickAck(w, requester, Some(target)).Done?
    requires w.members[target].room == w.members[requester].room
    ensures var w' := Kick(w, requester, Some(target)); var k := Key(w.members[target].room, w.members[target].user);
            && requester in w'.members && k.room in w'.tracked && k in w'.kicked
            && UserSockets(w'.members, k) == UserSockets(w.members, k) - {target}
            && w'.seats == w.seats
  {
    hide Send;
    var m := w.members[target];
    var w1 := Marked(w, requester, target);
    assert requester in MembersOf(w1.(members := w1.members - {target}), m.room);
  }

  lemma PresentExactly(w: World, k: Key)
    ensures k.user in Present(w, k.room) <==> UserSockets(w.members, k) != {} || k in w.seats
  {
    if k.user in MemberUsers(w, k.room) {
      var c :| c in w.members && w.members[c].room == k.room && w.members[c].user == k.user;
      assert c in UserSockets(w.members, k);
    }
    if c :| c in UserSockets(w.members, k) { assert w.members[c].user in MemberUsers(w, k.room); }
    if k in w.seats { assert k.user in SeatUsers(w, k.room); }
  }

  /** In every continuation in which the room's lifetime lasts the user is absent, as member and as seat holder. */
  ghost predicate OutForGood(w: World, k: Key) {
    forall es | PossibleRun(w, es) && Lasts(w, es, k.room) :: k.user !in Present(Run(w, es), k.room)
  }

  lemma OutForGoodExactly(w: World, k: Key)
    requires k in w.kicked
    ensures OutForGood(w, k) <==> UserSockets(w.members, k) == {} && k !in w.seats
  {
    PresentExactly(w, k);
    if OutForGood(w, k) {
      assert PossibleRun(w, []) && Lasts(w, [], k.room) && Run(w, []) == w;
    }
    if UserSockets(w.members, k) == {} && k !in w.seats {
      forall es | PossibleRun(w, es) && Lasts(w, es, k.room) ensures k.user !in Present(Run(w, es), k.room) {
        KickLasts(w, es, k);
        PresentExactly(Run(w, es), k);
        hide Run, Lasts, PossibleRun, Present, UserSockets;
      }
    }
  }

  /**
   A kicked user is absent from the room from the kick until the room's lifetime ends, however many joins
   were already waiting for their credentials, if and only if the target was its only member socket and it
   held no seat: the kick removes one record.
   */
  lemma KickIsTerminal(w: World, requester: SocketId, target: SocketId)
    requires Coherent(w) && target in w.members && KickAck(w, requester, Some(target)).Done?
    requires w.members[target].room == w.members[requester].room
    ensures var k := Key(w.members[target].room, w.members[target].user);
            OutForGood(Kick(w, requester, Some(target)), k) <==> UserSockets(w.members, k) == {target} && k !in w.seats
  {
    var k := Key(w.members[target].room, w.members[target].user);
    KickTakesEffect(w, requester, target);
    assert target in UserSockets(w.members, k);
    hide Kick, OutForGood, UserSockets;
    OutForGoodExactly(Kick(w, requester, Some(target)), k);
  }

  // ----- A lock turns away new joins, not suspended ones -----

  ghost predicate StaysLocked(w: World, es: seq<Event>, r: RoomId)
    requires PossibleRun(w, es)
    decreases |es|
  {
    r in w.locked && (es == [] || StaysLocked(Step(w, es[0]), es[1..], r))
  }

  function Waiting(w: World, r: RoomId): set<SocketId> {
    set t | t in w.pending && w.pending[t].room == r :: w.pending[t].socket
  }

  /** `w'` has no member that `w` did not have, and the same suspended joins. */
  ghost predicate NoArrival(w: World, w': World) {
    && w'.pending == w.pending
    && forall c | c in w'.members :: c in w.members && w'.members[c] == w.members[c]
  }

  lemma DepartNoArrival(w: World, c: SocketId, reason: Reason)
    ensures NoArrival(w, Depart(w, c, reason))
  {
    hide Send;
  }

  lemma {:induction false} DepartAllNoArrival(w: World, order: seq<SocketId>, reason: Reason)
    ensures NoArrival(w, DepartAll(w, order, reason))
    decreases |order|
  {
    if order != [] {
      hide Depart;
      DepartAllNoArrival(w, order[..|order| - 1], reason);
      DepartNoArrival(DepartAll(w, order[..|order| - 1], reason), order[|order| - 1], reason);
    }
  }

  lemma EndNoArrival(w: World, room: RoomId, order: seq<SocketId>)
    ensures NoArrival(w, EndRoom(w, room, order))
  {
    var w1 := Lapse(w, room);
    var w2 := w1.(inbox := Send(w1.inbox, MembersOf(w, room), RoomClosed(room)));
    DepartAllNoArrival(w2, order, RoomEnd);
    hide Send, DepartAll;
  }

  lemma KickNoArrival(w: World, requester: SocketId, target: Option<SocketId>)
    requires target.Some? ==> target.value in w.members
    ensures NoArrival(w, Kick(w, requester, target))
  {
    if KickAck(w, requester, target).Done? {
      DepartNoArrival(Marked(w, requester, target.value), target.value, WasKicked);
      hide Depart, Send;
    }
  }

  lemma ExpireNoArrival(w: World, k: Key)
    ensures NoArrival(w, Expire(w, k))
  {
    hide Send, MembersOf, SeatUsers, SlugOf;
  }

  lemma StepNoArrival(w: World, e: Event)
    requires Possible(w, e) && !e.Begin? && !e.Commit?
    ensures NoArrival(w, Step(w, e))
  {
    hide Depart, Expire, Kick, EndRoom, Send, Admit;
    match e
    case Leave(c, reason) => DepartNoArrival(w, c, reason);
    case SeatExpires(key) => ExpireNoArrival(w, key);
    case KickUser(requester, user, target) => KickNoArrival(w, requester, target);
    case End(room, order) => EndNoArrival(w, room, order);
    case _ =>
  }

  lemma AdmitArrival(w: World, c: SocketId, rec: Record, slug: Option<Slug>)
    ensures Admit(w, c, rec, slug).pending == w.pending
    ensures Admit(w, c, rec, slug).members == if Key(rec.room, rec.user) in w.kicked then w.members else w.members[c := rec]
  {
    hide Send, MembersOf;
  }

  lemma StepKeepsLockedOut(w: World, e: Event, r: RoomId)
    requires Possible(w, e) && r in w.locked
    ensures MembersOf(Step(w, e), r) + Waiting(Step(w, e), r) <= MembersOf(w, r) + Waiting(w, r)
  {
    hide Depart, Expire, Kick, EndRoom, Drop, Send, Lock;
    if !e.Begin? && !e.Commit? {
      StepNoArrival(w, e);
      hide Step, Possible;
    } else if e.Commit? && e.credential.Some? {
      var q := w.pending[e.ticket];
      var w1 := w.(pending := w.pending - {e.ticket});
      AdmitArrival(w1, q.socket, e.credential.value, q.slug);
      hide Admit;
    }
  }

  /**
   While a room stays locked, the only sockets that can become members are those whose join had
   already passed the lock check and was waiting for its credential when the lock fell.
   */
  lemma {:induction false} LockBoundsAdmissions(w: World, es: seq<Event>, r: RoomId)
    requires PossibleRun(w, es) && StaysLocked(w, es, r)
    ensures MembersOf(Run(w, es), r) <= MembersOf(w, r) + Waiting(w, r)
    decreases |es|
  {
    if es != [] {
      StepKeepsLockedOut(w, es[0], r);
      hide Step;
      LockBoundsAdmissions(Step(w, es[0]), es[1..], r);
    }
  }

  /** And they do become members: the lock is not looked at again. */
  lemma LockIgnoredAtCommit(w: World, ticket: Ticket, rec: Record)
    requires Possible(w, Commit(ticket, Some(rec)))
    ensures Step(w, Commit(ticket, Some(rec))).members ==
            if Key(rec.room, rec.user) in w.kicked then w.members else w.members[w.pending[ticket].socket := rec]
  {
    hide Send, MembersOf;
  }

  lemma RunCons(w: World, e: Event, es: seq<Event>)
    requires Possible(w, e) && PossibleRun(Step(w, e), es)
    ensures PossibleRun(w, [e] + es) && Run(w, [e] + es) == Run(Step(w, e), es)
  {
    assert ([e] + es)[1..] == es;
  }

  /** Some user has not been kicked from the room. */
  lemma FreshUser(w: World, r: RoomId) returns (u: UserId)
    ensures Key(r, u) !in w.kicked
  {
    u := FreshUserAmong(w.kicked, r);
  }

  lemma {:induction false} FreshUserAmong(kicked: set<Key>, r: RoomId) returns (u: UserId)
    ensures forall k | k in kicked && k.room == r :: k.user < u
    ensures Key(r, u) !in kicked
    decreases |kicked|
  {
    u := 0;
    if kicked != {} {
      var k :| k in kicked;
      var v := FreshUserAmong(kicked - {k}, r);
      u := if k.room == r && k.user >= v then k.user + 1 else v;
      forall q | q in kicked && q.room == r ensures q.user < u { assert q == k || q in kicked - {k}; }
    }
  }

  /** One event during which the room stays locked. */
  lemma LockedCons(w: World, e: Event, es: seq<Event>, r: RoomId)
    requires r in w.locked && Possible(w, e) && PossibleRun(Step(w, e), es) && StaysLocked(Step(w, e), es, r)
    ensures PossibleRun(w, [e] + es) && StaysLocked(w, [e] + es, r)
  {
    RunCons(w, e, es);
    assert ([e] + es)[1..] == es;
  }

  lemma CommitLocked(w: World, ticket: Ticket, rec: Record)
    requires Possible(w, Commit(ticket, Some(rec)))
    ensures Step(w, Commit(ticket, Some(rec))).locked == w.locked
  {
    hide Send, MembersOf;
  }

  /** The join behind the ticket is admitted next: a run that stays locked. */
  lemma CommitArrives(w: World, r: RoomId, ticket: Ticket) returns (es: seq<Event>)
    requires r in w.locked && ticket in w.pending && w.pending[ticket].room == r
    requires w.pending[ticket].socket in w.members ==> w.members[w.pending[ticket].socket].room == r
    ensures PossibleRun(w, es) && StaysLocked(w, es, r) && w.pending[ticket].socket in MembersOf(Run(w, es), r)
  {
    var u := FreshUser(w, r);
    var rec := Record(r, u, false, false, false);
    var e := Commit(ticket, Some(rec));
    LockIgnoredAtCommit(w, ticket, rec);
    CommitLocked(w, ticket, rec);
    var w' := Step(w, e);
    hide Step;
    assert PossibleRun(w', []) && StaysLocked(w', [], r) && Run(w', []) == w';
    RunCons(w, e, []);
    LockedCons(w, e, [], r);
    es := [e] + [];
  }

  lemma LeaveElsewhere(w: World, c: SocketId, r: RoomId)
    requires r in w.locked && c in w.members && w.members[c].room != r
    ensures var w' := Depart(w, c, Left);
            c !in w'.members && r in w'.locked && w'.pending == w.pending
  {
    hide Send, SlugOf, MembersOf, SeatUsers;
  }

  /**
   What a lock keeps out: no socket becomes a member in any continuation that stays locked if and only if
   every socket whose join waits for the room is a member of it already.
   */
  lemma LockShutsExactly(w: World, r: RoomId)
    requires r in w.locked
    ensures (forall es | PossibleRun(w, es) && StaysLocked(w, es, r) :: MembersOf(Run(w, es), r) <= MembersOf(w, r))
            <==> Waiting(w, r) <= MembersOf(w, r)
  {
    hide Step, Possible;
    if Waiting(w, r) <= MembersOf(w, r) {
      forall es | PossibleRun(w, es) && StaysLocked(w, es, r) ensures MembersOf(Run(w, es), r) <= MembersOf(w, r) {
        LockBoundsAdmissions(w, es, r);
      }
    } else {
      var es, c := LockArrival(w, r);
      assert !(MembersOf(Run(w, es), r) <= MembersOf(w, r));
    }
  }

  lemma LockArrival(w: World, r: RoomId) returns (es: seq<Event>, c: SocketId)
    requires r in w.locked && !(Waiting(w, r) <= MembersOf(w, r))
    ensures PossibleRun(w, es) && StaysLocked(w, es, r) && c in MembersOf(Run(w, es), r) && c !in MembersOf(w, r)
  {
    var t: Ticket :| t in w.pending && w.pending[t].room == r && w.pending[t].socket !in MembersOf(w, r);
    c := w.pending[t].socket;
    if c in w.members {
      LeaveElsewhere(w, c, r);
      var e := Leave(c, Left);
      assert Possible(w, e);
      var w' := Step(w, e);
      assert w' == Depart(w, c, Left);
      hide Step, Depart;
      var rest := CommitArrives(w', r, t);
      RunCons(w, e, rest);
      LockedCons(w, e, rest, r);
      es := [e] + rest;
    } else {
      es := CommitArrives(w, r, t);
    }
  }
}
