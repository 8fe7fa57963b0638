/**
 Agreement between clients and server: in every reachable state the roster a client has built
 from the messages sent to it matches the room, up to the grace-seat holders it was never told
 about.
 */
module RosterTheorems {
  import opened Common
  import opened PresenceModel
  import opened PresenceTheorems

  /** Users who held a grace seat when `c` joined and have not been announced as gone since. */
  function Unseen(w: World, c: SocketId): set<UserId> {
    if c in w.heldAtJoin then set u | u in w.heldAtJoin[c] && PeerLeft(u) !in Received(w.inbox, c) else {}
  }

  ghost predicate Agrees(w: World, c: SocketId)
    requires c in w.members
  {
    var roster := Roster(Received(w.inbox, c));
    && roster !! Unseen(w, c)
    && roster + Unseen(w, c) == Present(w, w.members[c].room) - {w.members[c].user}
  }

  /** At most one member socket per user and room, and no grace seat beside it. */
  ghost predicate SingleSeat(w: World) {
    && (forall c, d | c in w.members && d in w.members && c != d ::
          w.members[c].room != w.members[d].room || w.members[c].user != w.members[d].user)
    && (forall c | c in w.members :: Key(w.members[c].room, w.members[c].user) !in w.seats)
  }

  ghost predicate RostersAgree(w: World) {
    forall c | c in w.members :: Agrees(w, c)
  }

  lemma RosterGrows(ms: seq<Msg>, m: Msg)
    ensures Roster(ms + [m]) == Apply(Roster(ms), m)
  {
    assert (ms + [m])[..|ms|] == ms;
  }

  /** What one more message does to both halves of the agreement. */
  lemma Told(w: World, w': World, c: SocketId, to: set<SocketId>, m: Msg)
    requires w'.inbox == Send(w.inbox, to, m) && w'.heldAtJoin == w.heldAtJoin
    ensures Roster(Received(w'.inbox, c)) == if c in to then Apply(Roster(Received(w.inbox, c)), m) else Roster(Received(w.inbox, c))
    ensures Unseen(w', c) == if c in to && m.PeerLeft? then Unseen(w, c) - {m.user} else Unseen(w, c)
  {
    if c in to {
      RosterGrows(Received(w.inbox, c), m);
      assert Received(w'.inbox, c) == Received(w.inbox, c) + [m];
    } else {
      assert Received(w'.inbox, c) == Received(w.inbox, c);
    }
  }

  // ----- How the present users change -----

  lemma UsersAdded(w: World, w': World, c0: SocketId, rec: Record, r: RoomId)
    requires c0 !in w.members && w'.members == w.members[c0 := rec]
    ensures MemberUsers(w', r) == MemberUsers(w, r) + (if r == rec.room then {rec.user} else {})
  {
    forall c | c in w.members && w.members[c].room == r ensures w.members[c].user in MemberUsers(w', r) {
      assert w'.members[c] == w.members[c];
    }
    if r == rec.room { assert w'.members[c0].user in MemberUsers(w', r); }
  }

  lemma UsersRemoved(w: World, w': World, gone: SocketId, r: RoomId)
    requires SingleSeat(w) && gone in w.members && w'.members == w.members - {gone}
    ensures MemberUsers(w', r) == MemberUsers(w, r) - (if r == w.members[gone].room then {w.members[gone].user} else {})
  {
    forall c | c in w.members && w.members[c].room == r && c != gone ensures w.members[c].user in MemberUsers(w', r) {
      assert w'.members[c] == w.members[c];
    }
    if r == w.members[gone].room { assert w.members[gone].user in MemberUsers(w, r); }
  }

  lemma SeatRemoved(w: World, w': World, k: Key, r: RoomId)
    requires w'.seats == w.seats - {k}
    ensures SeatUsers(w', r) == SeatUsers(w, r) - (if r == k.room then {k.user} else {})
  {
    forall q | q in w.seats && q.room == r && q != k ensures q.user in SeatUsers(w', r) {
      assert q in w'.seats;
    }
  }

  /** No user of a room is both a member and a seat holder. */
  lemma MembersNotSeated(w: World, r: RoomId)
    requires SingleSeat(w)
    ensures MemberUsers(w, r) !! SeatUsers(w, r)
  {
    forall c | c in w.members && w.members[c].room == r ensures w.members[c].user !in SeatUsers(w, r) {
      assert Key(r, w.members[c].user) !in w.seats;
    }
  }

  lemma DepartAgrees(w: World, gone: SocketId, reason: Reason, c: SocketId)
    requires SingleSeat(w) && c in w.members && gone in w.members && c != gone && Agrees(w, c)
    ensures c in Depart(w, gone, reason).members && Agrees(Depart(w, gone, reason), c)
  {
    hide Depart, Roster, SlugOf, Send, Unseen;
    var w' := Depart(w, gone, reason);
    DepartFacts(w, gone, reason);
    var m, r := w.members[gone], w.members[c].room;
    var left := MembersOf(w.(members := w.members - {gone}), m.room);
    Told(w, w', c, left, PeerLeft(m.user));
    assert (c in left) == (r == m.room);
    UsersRemoved(w, w', gone, r);
    MembersNotSeated(w, r);
    assert SeatUsers(w', r) == SeatUsers(w, r) && (r == m.room ==> m.user in MemberUsers(w, r));
    hide MemberUsers, SeatUsers, MembersOf, SingleSeat;
    if r == m.room {
      MemberLeaves(Roster(Received(w.inbox, c)), Unseen(w, c), MemberUsers(w, r), SeatUsers(w, r), w.members[c].user, m.user);
    }
  }

  lemma MemberLeaves(roster: set<UserId>, unseen: set<UserId>, members: set<UserId>, seats: set<UserId>, me: UserId, u: UserId)
    requires roster !! unseen && roster + unseen == members + seats - {me}
    requires members !! seats && u in members
    ensures roster - {u} !! unseen - {u} && (roster - {u}) + (unseen - {u}) == (members - {u}) + seats - {me}
  {
  }

  lemma DepartSingleSeat(w: World, gone: SocketId, reason: Reason)
    requires SingleSeat(w)
    ensures SingleSeat(Depart(w, gone, reason))
  {
    if gone in w.members { DepartFacts(w, gone, reason); }
    hide Send;
  }

  lemma {:induction false} DepartAllAgrees(w: World, order: seq<SocketId>, reason: Reason, c: SocketId)
    requires SingleSeat(w) && c in w.members && c !in order && Agrees(w, c)
    ensures SingleSeat(DepartAll(w, order, reason))
    ensures c in DepartAll(w, order, reason).members && Agrees(DepartAll(w, order, reason), c)
    decreases |order|
  {
    if order != [] {
      var w1 := DepartAll(w, order[..|order| - 1], reason);
      DepartAllAgrees(w, order[..|order| - 1], reason, c);
      var gone := order[|order| - 1];
      assert gone != c;
      DepartSingleSeat(w1, gone, reason);
      if gone in w1.members { DepartAgrees(w1, gone, reason, c); }
      hide Agrees, SingleSeat, Send;
    }
  }

  lemma {:induction false} DepartAllRemoves(w: World, order: seq<SocketId>, reason: Reason)
    ensures DepartAll(w, order, reason).members == w.members - (set c | c in order)
    ensures SingleSeat(w) ==> SingleSeat(DepartAll(w, order, reason))
    decreases |order|
  {
    if order != [] {
      hide SingleSeat, Send, Depart;
      var w1 := DepartAll(w, order[..|order| - 1], reason);
      DepartAllRemoves(w, order[..|order| - 1], reason);
      if SingleSeat(w) { DepartSingleSeat(w1, order[|order| - 1], reason); }
      assert order == order[..|order| - 1] + [order[|order| - 1]];
      DepartRemoves(w1, order[|order| - 1], reason);
    }
  }

  lemma DepartRemoves(w: World, c: SocketId, reason: Reason)
    ensures Depart(w, c, reason).members == w.members - {c}
  {
    hide Send;
  }

  lemma ExpireAgrees(w: World, k: Key, c: SocketId)
    requires Coherent(w) && SingleSeat(w) && c in w.members && k in w.seats && Agrees(w, c)
    ensures c in Expire(w, k).members && Agrees(Expire(w, k), c)
  {
    var w' := Expire(w, k);
    assert k.room in w.tracked;
    hide Expire, Roster, SlugOf, Coherent, Send, Unseen;
    ExpireFacts(w, k);
    var r := w.members[c].room;
    Told(w, w', c, MembersOf(w, k.room), PeerLeft(k.user));
    SeatRemoved(w, w', k, r);
    MembersNotSeated(w, r);
    assert (c in MembersOf(w, k.room)) == (r == k.room) && k.user in SeatUsers(w, k.room);
    assert MemberUsers(w', r) == MemberUsers(w, r) && w.members[c].user in MemberUsers(w, r);
    hide MemberUsers, SeatUsers, MembersOf, SingleSeat;
    if r == k.room {
      SeatHolderLeaves(Roster(Received(w.inbox, c)), Unseen(w, c), MemberUsers(w, r), SeatUsers(w, r), w.members[c].user, k.user);
    }
  }

  lemma SeatHolderLeaves(roster: set<UserId>, unseen: set<UserId>, members: set<UserId>, seats: set<UserId>, me: UserId, u: UserId)
    requires roster !! unseen && roster + unseen == members + seats - {me}
    requires members !! seats && u in seats && me in members
    ensures roster - {u} !! unseen - {u} && (roster - {u}) + (unseen - {u}) == members + (seats - {u}) - {me}
  {
  }

  lemma DropAgrees(w: World, gone: SocketId, c: SocketId)
    requires c in w.members && gone in w.members && c != gone && Agrees(w, c)
    ensures c in Drop(w, gone).members && Agrees(Drop(w, gone), c)
  {
    var w' := Drop(w, gone);
    var r := w.members[c].room;
    var k := Key(w.members[gone].room, w.members[gone].user);
    assert Present(w', r) == Present(w, r) by {
      forall u | u in Present(w, r) ensures u in Present(w', r) {
        if u in SeatUsers(w, r) {
          assert Key(r, u) in w'.seats;
        } else {
          var d :| d in w.members && w.members[d].room == r && w.members[d].user == u;
          if d == gone { assert k in w'.seats; } else { assert d in w'.members; }
        }
      }
    }
  }

  lemma AdmitPresent(w: World, w': World, c0: SocketId, rec: Record, r: RoomId)
    requires c0 !in w.members && w'.members == w.members[c0 := rec] && w'.seats == w.seats - {Key(rec.room, rec.user)}
    requires UserSockets(w.members, Key(rec.room, rec.user)) == {}
    ensures Present(w', r) == Present(w, r) + (if r == rec.room then {rec.user} else {})
    ensures rec.user in Present(w, rec.room) <==> Key(rec.room, rec.user) in w.seats
    ensures forall c | c in w.members && w.members[c].room == rec.room :: w.members[c].user != rec.user
  {
    var own := Key(rec.room, rec.user);
    UsersAdded(w, w', c0, rec, r);
    SeatRemoved(w, w', own, r);
    forall d | d in w.members && w.members[d].room == rec.room ensures w.members[d].user != rec.user {
      assert d !in UserSockets(w.members, own);
    }
    if own in w.seats { assert rec.user in SeatUsers(w, rec.room); }
  }

  /** A joiner no one else stands for: every other client's roster follows, silently if a seat is restored. */
  lemma AdmitAgreesOther(w: World, c0: SocketId, rec: Record, slug: Option<Slug>, c: SocketId)
    requires c0 !in w.members && c in w.members && Agrees(w, c)
    requires Key(rec.room, rec.user) !in w.kicked && UserSockets(w.members, Key(rec.room, rec.user)) == {}
    ensures c in Admit(w, c0, rec, slug).members && Agrees(Admit(w, c0, rec, slug), c)
  {
    hide Roster, Send, Unseen, OpensRoom, UserSockets, Present;
    var w' := Admit(w, c0, rec, slug);
    assert w'.members == w.members[c0 := rec] && w'.seats == w.seats - {Key(rec.room, rec.user)};
    hide Admit;
    AdmitMessages(w, c0, rec, slug, c);
    AdmitPresent(w, w', c0, rec, w.members[c].room);
  }

  /** What an admission sends to another member. */
  lemma AdmitTells(w: World, c0: SocketId, rec: Record, slug: Option<Slug>, c: SocketId)
    requires c != c0 && Key(rec.room, rec.user) !in w.kicked
    ensures var w' := Admit(w, c0, rec, slug);
            var told := if Key(rec.room, rec.user) in w.seats then w.inbox
                        else Send(w.inbox, MembersOf(w, rec.room) - {c0}, PeerJoined(rec.user));
            && Received(w'.inbox, c) == Received(told, c)
            && Unseen(w', c) == Unseen(w.(inbox := told), c)
  {
    hide Send, MembersOf;
  }

  /** The messages of one admission, as another member sees them. */
  lemma AdmitMessages(w: World, c0: SocketId, rec: Record, slug: Option<Slug>, c: SocketId)
    requires c0 !in w.members && c in w.members && Key(rec.room, rec.user) !in w.kicked
    ensures var w' := Admit(w, c0, rec, slug);
            && Unseen(w', c) == Unseen(w, c)
            && Roster(Received(w'.inbox, c)) ==
                 Roster(Received(w.inbox, c)) + (if w.members[c].room == rec.room && Key(rec.room, rec.user) !in w.seats then {rec.user} else {})
  {
    hide Admit, Roster, Unseen, Received, Send;
    var others := MembersOf(w, rec.room) - {c0};
    AdmitTells(w, c0, rec, slug, c);
    assert c in others <==> w.members[c].room == rec.room;
    hide MembersOf;
    if Key(rec.room, rec.user) !in w.seats {
      Told(w, w.(inbox := Send(w.inbox, others, PeerJoined(rec.user))), c, others, PeerJoined(rec.user));
    } else {
      assert w.(inbox := w.inbox) == w;
    }
  }

  /** What the joiner itself learns: the other members, none of the seat holders. */
  lemma AdmitOwnRoster(w: World, c0: SocketId, rec: Record, slug: Option<Slug>)
    requires c0 !in w.members && Key(rec.room, rec.user) !in w.kicked
    ensures var w' := Admit(w, c0, rec, slug);
            && Roster(Received(w'.inbox, c0)) == MemberUsers(w, rec.room)
            && Unseen(w', c0) == (set q | q in w.seats - {Key(rec.room, rec.user)} && q.room == rec.room :: q.user)
  {
    var w' := Admit(w, c0, rec, slug);
    var others := MembersOf(w, rec.room) - {c0};
    var users := set o | o in others :: w.members[o].user;
    GreetingFacts(w, c0, rec, slug);
    assert users == MemberUsers(w, rec.room);
    hide Admit, Send, MembersOf, MemberUsers;
    RosterGrows([], ExistingPeers(users));
    assert [] + [ExistingPeers(users)] == [ExistingPeers(users)];
    assert Roster([]) == {};
    if others == {} { assert users == {}; }
    hide Roster;
  }

  /** What the joiner itself is sent, and the seats it finds. */
  lemma GreetingFacts(w: World, c0: SocketId, rec: Record, slug: Option<Slug>)
    requires Key(rec.room, rec.user) !in w.kicked
    ensures var w' := Admit(w, c0, rec, slug); var others := MembersOf(w, rec.room) - {c0};
            && c0 in w'.inbox && c0 in w'.heldAtJoin
            && w'.inbox[c0] == (if others == {} then [] else [ExistingPeers(set o | o in others :: w.members[o].user)])
            && w'.heldAtJoin[c0] == (set q | q in w.seats - {Key(rec.room, rec.user)} && q.room == rec.room :: q.user)
  {
    hide Send, MembersOf;
  }

  /**
   From an agreeing state, all rosters agree after an admission exactly when the joiner's user had
   no member socket in the room. A second member socket of the same user hears its own user announced.
   */
  lemma AdmissionAgreementExact(w: World, c0: SocketId, rec: Record, slug: Option<Slug>)
    requires SingleSeat(w) && RostersAgree(w) && c0 !in w.members && Key(rec.room, rec.user) !in w.kicked
    ensures RostersAgree(Admit(w, c0, rec, slug)) <==> UserSockets(w.members, Key(rec.room, rec.user)) == {}
  {
    var w' := Admit(w, c0, rec, slug);
    var own := Key(rec.room, rec.user);
    AdmitOwnRoster(w, c0, rec, slug);
    AdmitFacts(w, c0, rec, slug);
    hide Admit, Roster, OpensRoom, Unseen, Send;
    if UserSockets(w.members, own) == {} {
      forall c | c in w'.members ensures Agrees(w', c) {
        if c == c0 {
          AdmitAgreesSelf(w, w', c0, rec);
        } else {
          hide Agrees, SingleSeat;
          AdmitAgreesOther(w, c0, rec, slug, c);
        }
      }
    } else {
      var d :| d in UserSockets(w.members, own);
      assert rec.user in MemberUsers(w, rec.room) by { assert w.members[d].user == rec.user; }
      assert !Agrees(w', c0);
    }
  }

  lemma AdmitAgreesSelf(w: World, w': World, c0: SocketId, rec: Record)
    requires SingleSeat(w) && c0 !in w.members && UserSockets(w.members, Key(rec.room, rec.user)) == {}
    requires w'.members == w.members[c0 := rec] && w'.seats == w.seats - {Key(rec.room, rec.user)}
    requires Roster(Received(w'.inbox, c0)) == MemberUsers(w, rec.room)
    requires Unseen(w', c0) == (set q | q in w.seats - {Key(rec.room, rec.user)} && q.room == rec.room :: q.user)
    ensures Agrees(w', c0)
  {
    hide Roster, Unseen;
    var own := Key(rec.room, rec.user);
    forall d | d in w.members ensures Key(w.members[d].room, w.members[d].user) != own { assert d !in UserSockets(w.members, own); }
    hide UserSockets;
    assert Unseen(w', c0) == SeatUsers(w', rec.room);
    assert rec.user !in MemberUsers(w, rec.room) && rec.user !in SeatUsers(w', rec.room);
    UsersAdded(w, w', c0, rec, rec.room);
    SeatRemoved(w, w', own, rec.room);
    MembersNotSeated(w, rec.room);
    hide MemberUsers, SeatUsers, SingleSeat;
  }

  // ----- Whole runs -----

  /** An admission is from a socket that is not a member, for a user without a member socket in the room. */
  ghost predicate SoleSocket(w: World, e: Event)
    requires Possible(w, e)
  {
    e.Commit? && e.credential.Some? && Key(e.credential.value.room, e.credential.value.user) !in w.kicked ==>
      w.pending[e.ticket].socket !in w.members
      && UserSockets(w.members, Key(e.credential.value.room, e.credential.value.user)) == {}
  }

  ghost predicate SoleSocketRun(w: World, es: seq<Event>)
    requires PossibleRun(w, es)
    decreases |es|
  {
    es == [] || (SoleSocket(w, es[0]) && SoleSocketRun(Step(w, es[0]), es[1..]))
  }

  /** Worlds that differ only in fields the agreement does not read. */
  lemma SameAgreement(w: World, w': World)
    requires w'.members == w.members && w'.seats == w.seats && w'.inbox == w.inbox && w'.heldAtJoin == w.heldAtJoin
    requires SingleSeat(w) && RostersAgree(w)
    ensures SingleSeat(w') && RostersAgree(w')
  {
    forall c | c in w'.members ensures Agrees(w', c) {
      assert Agrees(w, c);
      assert Present(w', w'.members[c].room) == Present(w, w.members[c].room);
    }
  }

  lemma CommitAgrees(w: World, ticket: Ticket, cred: Option<Record>)
    requires Possible(w, Commit(ticket, cred)) && SoleSocket(w, Commit(ticket, cred))
    requires SingleSeat(w) && RostersAgree(w)
    ensures SingleSeat(Step(w, Commit(ticket, cred))) && RostersAgree(Step(w, Commit(ticket, cred)))
  {
    var w1 := w.(pending := w.pending - {ticket});
    SameAgreement(w, w1);
    if cred.Some? && Key(cred.value.room, cred.value.user) !in w.kicked {
      var c0 := w.pending[ticket].socket;
      AdmissionAgreementExact(w1, c0, cred.value, w.pending[ticket].slug);
      AdmitFacts(w1, c0, cred.value, w.pending[ticket].slug);
      AdmitSingleSeat(w1, Admit(w1, c0, cred.value, w.pending[ticket].slug), c0, cred.value);
    }
  }

  lemma AdmitSingleSeat(w: World, w': World, c0: SocketId, rec: Record)
    requires SingleSeat(w) && c0 !in w.members && UserSockets(w.members, Key(rec.room, rec.user)) == {}
    requires w'.members == w.members[c0 := rec] && w'.seats == w.seats - {Key(rec.room, rec.user)}
    ensures SingleSeat(w')
  {
    forall d | d in w.members ensures Key(w.members[d].room, w.members[d].user) != Key(rec.room, rec.user) {
      assert d !in UserSockets(w.members, Key(rec.room, rec.user));
    }
  }

  lemma LeaveAgrees(w: World, gone: SocketId, reason: Reason)
    requires SingleSeat(w) && RostersAgree(w)
    ensures SingleSeat(Depart(w, gone, reason)) && RostersAgree(Depart(w, gone, reason))
  {
    DepartSingleSeat(w, gone, reason);
    if gone in w.members {
      var w' := Depart(w, gone, reason);
      DepartRemoves(w, gone, reason);
      hide Depart, SingleSeat, Agrees;
      forall c | c in w'.members ensures Agrees(w', c) {
        assert Agrees(w, c);
        DepartAgrees(w, gone, reason, c);
      }
    }
  }

  lemma DropSocketAgrees(w: World, gone: SocketId)
    requires SingleSeat(w) && RostersAgree(w)
    ensures SingleSeat(Drop(w, gone)) && RostersAgree(Drop(w, gone))
  {
    if gone in w.members {
      var w' := Drop(w, gone);
      forall c | c in w'.members ensures Agrees(w', c) {
        hide Agrees;
        assert Agrees(w, c);
        DropAgrees(w, gone, c);
      }
      hide Agrees;
    }
  }

  lemma ExpiryAgrees(w: World, k: Key)
    requires Coherent(w) && SingleSeat(w) && RostersAgree(w)
    ensures SingleSeat(Expire(w, k)) && RostersAgree(Expire(w, k))
  {
    if k in w.seats {
      var w' := Expire(w, k);
      ExpireFacts(w, k);
      hide Expire, Agrees, Coherent, Send, SlugOf;
      forall c | c in w'.members ensures Agrees(w', c) {
        assert Agrees(w, c);
        ExpireAgrees(w, k, c);
      }
    }
  }

  /** Messages that name no one leave every other client's agreement alone. */
  lemma NoticeAgrees(w: World, w': World, to: set<SocketId>, m: Msg, c: SocketId)
    requires c in w.members && w'.members == w.members && w'.seats == w.seats && w'.heldAtJoin == w.heldAtJoin
    requires w'.inbox == Send(w.inbox, to, m) && (m.LockChanged? || c !in to) && Agrees(w, c)
    ensures Agrees(w', c)
  {
    Told(w, w', c, to, m);
    hide Send, Unseen, Roster;
    assert Present(w', w.members[c].room) == Present(w, w.members[c].room);
  }

  lemma LockAgrees(w: World, requester: SocketId, on: bool)
    requires SingleSeat(w) && RostersAgree(w)
    ensures SingleSeat(Lock(w, requester, on)) && RostersAgree(Lock(w, requester, on))
  {
    hide Send, MembersOf;
    var w' := Lock(w, requester, on);
    if LockAck(w, requester).Done? && (w.members[requester].room in w.locked) != on {
      forall c | c in w'.members ensures Agrees(w', c) {
        hide Agrees;
        assert Agrees(w, c);
        NoticeAgrees(w, w', MembersOf(w, w.members[requester].room), LockChanged(on), c);
      }
    }
  }

  lemma KickAgrees(w: World, requester: SocketId, target: Option<SocketId>)
    requires SingleSeat(w) && RostersAgree(w) && (target.Some? ==> target.value in w.members)
    ensures SingleSeat(Kick(w, requester, target)) && RostersAgree(Kick(w, requester, target))
  {
    if KickAck(w, requester, target).Done? {
      var w1 := Marked(w, requester, target.value);
      var w' := Kick(w, requester, target);
      assert w' == Depart(w1, target.value, WasKicked);
      DepartSingleSeat(w1, target.value, WasKicked);
      DepartRemoves(w1, target.value, WasKicked);
      hide Depart, Kick, Send;
      forall c | c in w'.members ensures Agrees(w', c) {
        hide Agrees;
        assert Agrees(w, c);
        NoticeAgrees(w, w1, {target.value}, KickedOut(w.members[requester].room), c);
        DepartAgrees(w1, target.value, WasKicked, c);
      }
    }
  }

  /** Ending a room clears it out and does not touch the clients of any other room. */
  lemma EndAgrees(w: World, r: RoomId, order: seq<SocketId>)
    requires SingleSeat(w) && RostersAgree(w) && Enumerates(order, MembersOf(w, r))
    ensures SingleSeat(EndRoom(w, r, order)) && RostersAgree(EndRoom(w, r, order))
  {
    var w1 := Lapse(w, r);
    var w2 := w1.(inbox := Send(w1.inbox, MembersOf(w, r), RoomClosed(r)));
    hide Send, SlugOf;
    assert SingleSeat(w2);
    var w3 := if order == [] then w1 else DepartAll(w2, order, RoomEnd);
    var w' := EndRoom(w, r, order);
    assert w' == w3.(hooks := w3.hooks + [RoomEnded(r, SlugOf(w, r))]);
    DepartAllRemoves(w2, order, RoomEnd);
    assert w3.members == w.members - (set c | c in order);
    hide EndRoom, DepartAll;
    forall c | c in w3.members ensures Agrees(w3, c) {
      hide Lapse, Agrees, SingleSeat;
      assert c !in order;
      assert w.members[c].room != r;
      EndAgreesElsewhere(w, r, c);
      if order != [] {
        NoticeAgrees(w1, w2, MembersOf(w, r), RoomClosed(r), c);
        DepartAllAgrees(w2, order, RoomEnd, c);
      }
    }
    assert SingleSeat(w3) by { hide Lapse; }
    SameAgreement(w3, w');
  }

  lemma EndAgreesElsewhere(w: World, r: RoomId, c: SocketId)
    requires c in w.members && w.members[c].room != r && Agrees(w, c)
    ensures Agrees(Lapse(w, r), c)
  {
    var q := w.members[c].room;
    assert SeatUsers(Lapse(w, r), q) == SeatUsers(w, q);
    assert MemberUsers(Lapse(w, r), q) == MemberUsers(w, q);
  }

  lemma StepAgrees(w: World, e: Event)
    requires Coherent(w) && Possible(w, e) && SoleSocket(w, e)
    requires SingleSeat(w) && RostersAgree(w)
    ensures SingleSeat(Step(w, e)) && RostersAgree(Step(w, e))
  {
    hide SingleSeat, RostersAgree, Coherent, Depart, Drop, Expire, Kick, EndRoom, Lock, Admit;
    match e
    case Begin(_, _) => SameAgreement(w, Step(w, e));
    case Commit(ticket, cred) => CommitAgrees(w, ticket, cred);
    case Leave(socket, reason) => LeaveAgrees(w, socket, reason);
    case DropSocket(socket) => DropSocketAgrees(w, socket);
    case SeatExpires(key) => ExpiryAgrees(w, key);
    case KickUser(requester, user, target) => KickAgrees(w, requester, target);
    case SetLock(requester, on) => LockAgrees(w, requester, on);
    case End(room, order) => EndAgrees(w, room, order);
  }

  /**
   Roster agreement. In every state reachable without a second member socket of one user, each
   client's roster together with the seat holders it has not heard of is exactly the room without
   the client's own user: no client shows a ghost, and the only members it misses are silent
   restores.
   */
  lemma {:induction false} RosterAgreement(w: World, es: seq<Event>)
    requires Coherent(w) && SingleSeat(w) && RostersAgree(w)
    requires PossibleRun(w, es) && SoleSocketRun(w, es)
    ensures SingleSeat(Run(w, es)) && RostersAgree(Run(w, es))
    decreases |es|
  {
    if es != [] {
      StepCoherent(w, es[0]);
      StepAgrees(w, es[0]);
      hide Step, Coherent, SingleSeat, RostersAgree, SoleSocket;
      RosterAgreement(Step(w, es[0]), es[1..]);
    }
  }

  /** What agreement means for one client: no ghosts, and whoever is missing came back to a seat silently. */
  lemma NoGhosts(w: World, c: SocketId, d: SocketId)
    requires SingleSeat(w) && RostersAgree(w) && c in w.members && d in w.members && c != d
    requires w.members[c].room == w.members[d].room
    ensures Roster(Received(w.inbox, c)) <= Present(w, w.members[c].room) - {w.members[c].user}
    ensures w.members[d].user !in Roster(Received(w.inbox, c)) ==>
              c in w.heldAtJoin && w.members[d].user in w.heldAtJoin[c]
              && PeerLeft(w.members[d].user) !in Received(w.inbox, c)
  {
    assert Agrees(w, c);
    assert w.members[d].user in MemberUsers(w, w.members[c].room);
    hide Roster;
  }

  /** The empty service satisfies every hypothesis of the run theorems. */
  lemma EmptyIsSound(k: Key)
    ensures Coherent(EMPTY) && NoneVacant(EMPTY) && Balanced(EMPTY, k) && SingleSeat(EMPTY) && RostersAgree(EMPTY)
  {
    assert UserSockets(EMPTY.members, k) == {};
  }
}
