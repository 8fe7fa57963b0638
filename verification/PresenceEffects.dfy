/**
 What each operation of the presence service does to every part of the state, written out in the fields: who
 is let in or refused, what a room loses when it ends, who hears of it and which webhooks go out.
 */
module PresenceEffects {
  import opened Common
  import opened PresenceModel
  import opened PresenceTheorems

  // ----- Joining -----

  /** The lock is looked at here and nowhere else. */
  lemma BeginExactly(w: World, ticket: Ticket, request: Request)
    requires Possible(w, Begin(ticket, request))
    ensures var w' := Step(w, Begin(ticket, request));
            && (ticket in w'.pending <==> request.room !in w.locked) && (ticket in w'.pending ==> w'.pending[ticket] == request)
            && w'.pending - {ticket} == w.pending && w' == w.(pending := w'.pending)
  {
  }

  /** The slugs known for a room after a join under `slug`. */
  ghost predicate SlugKnown(before: Option<seq<Slug>>, after: Option<seq<Slug>>, slug: Option<Slug>) {
    match slug
    case None => after == before
    case Some(s) =>
      var known := before.GetOr([]);
      after == Some(if s in known then known else known + [s])
  }

  /** A join without a credential, or of a kicked user, leaves the service as it was. */
  lemma RefusalExactly(w: World, ticket: Ticket, cred: Option<Record>)
    requires Possible(w, Commit(ticket, cred))
    requires cred.None? || Key(cred.value.room, cred.value.user) in w.kicked
    ensures Step(w, Commit(ticket, cred)) == w.(pending := w.pending - {ticket})
  {
  }

  /** A newcomer is told of the users of the room's other members, or nothing when there are none. */
  ghost predicate Welcome(w: World, r: RoomId, c: SocketId, ms: seq<Msg>) {
    if forall d | d in w.members && d != c :: w.members[d].room != r then ms == []
    else
      && |ms| == 1 && ms[0].ExistingPeers?
      && forall u :: u in ms[0].users <==> exists d :: d in w.members && d != c && w.members[d].room == r && w.members[d].user == u
  }

  /** Any other join admits its socket: every field, and who is told what. */
  lemma AdmissionExactly(w: World, ticket: Ticket, rec: Record)
    requires Possible(w, Commit(ticket, Some(rec))) && Key(rec.room, rec.user) !in w.kicked
    ensures var w' := Step(w, Commit(ticket, Some(rec))); var r := rec.room; var own := Key(r, rec.user);
            var c := w.pending[ticket].socket;
            && w'.members == w.members[c := rec] && w'.seats == w.seats - {own} && w'.tracked == w.tracked + {r}
            && w'.locked == w.locked && w'.kicked == w.kicked && w'.pending == w.pending - {ticket}
            && w'.owners == (if rec.ownsRoom then w.owners[r := rec.user] else w.owners)
            && w'.slugs - {r} == w.slugs - {r}
            && SlugKnown(Lookup(w.slugs, r), Lookup(w'.slugs, r), w.pending[ticket].slug)
            && w'.slugIndex == (if w.pending[ticket].slug.Some? then w.slugIndex[w.pending[ticket].slug.value := r] else w.slugIndex)
    ensures var w' := Step(w, Commit(ticket, Some(rec))); var r := rec.room; var c := w.pending[ticket].socket;
            && (forall d | d in w.members && d != c ::
                  Received(w'.inbox, d) == Received(w.inbox, d)
                    + (if w.members[d].room == r && Key(r, rec.user) !in w.seats then [PeerJoined(rec.user)] else []))
            && Welcome(w, r, c, Received(w'.inbox, c))
  {
    AdmissionFields(w, ticket, rec);
    AdmissionTells(w, ticket, rec);
  }

  function Lookup(slugs: map<RoomId, seq<Slug>>, r: RoomId): Option<seq<Slug>> {
    if r in slugs then Some(slugs[r]) else None
  }

  lemma AdmissionFields(w: World, ticket: Ticket, rec: Record)
    requires Possible(w, Commit(ticket, Some(rec))) && Key(rec.room, rec.user) !in w.kicked
    ensures var w' := Step(w, Commit(ticket, Some(rec))); var r := rec.room;
            && w'.members == w.members[w.pending[ticket].socket := rec] && w'.seats == w.seats - {Key(r, rec.user)} && w'.tracked == w.tracked + {r}
            && w'.locked == w.locked && w'.kicked == w.kicked && w'.pending == w.pending - {ticket}
            && w'.owners == (if rec.ownsRoom then w.owners[r := rec.user] else w.owners)
            && w'.slugs - {r} == w.slugs - {r}
            && SlugKnown(Lookup(w.slugs, r), Lookup(w'.slugs, r), w.pending[ticket].slug)
            && w'.slugIndex == (if w.pending[ticket].slug.Some? then w.slugIndex[w.pending[ticket].slug.value := r] else w.slugIndex)
  {
    hide Send, MembersOf;
  }

  lemma AdmissionInbox(w: World, ticket: Ticket, rec: Record)
    requires Possible(w, Commit(ticket, Some(rec))) && Key(rec.room, rec.user) !in w.kicked
    ensures var w' := Step(w, Commit(ticket, Some(rec))); var c := w.pending[ticket].socket;
            var others := MembersOf(w, rec.room) - {c};
            && Received(w'.inbox, c) == (if others == {} then [] else [ExistingPeers(set o | o in others :: w.members[o].user)])
            && forall d | d != c ::
                 Received(w'.inbox, d) == Received(if Key(rec.room, rec.user) in w.seats then w.inbox else Send(w.inbox, others, PeerJoined(rec.user)), d)
  {
    assert MembersOf(w.(pending := w.pending - {ticket}), rec.room) == MembersOf(w, rec.room);
    hide Send, MembersOf;
  }

  lemma Welcomed(w: World, r: RoomId, c: SocketId, others: set<SocketId>)
    requires forall d :: d in others <==> d in w.members && d != c && w.members[d].room == r
    ensures Welcome(w, r, c, if others == {} then [] else [ExistingPeers(set o | o in others :: w.members[o].user)])
  {
    if others != {} {
      var users := set o | o in others :: w.members[o].user;
      assert forall u :: u in users <==> exists d :: d in w.members && d != c && w.members[d].room == r && w.members[d].user == u;
    }
  }

  lemma AdmissionTells(w: World, ticket: Ticket, rec: Record)
    requires Possible(w, Commit(ticket, Some(rec))) && Key(rec.room, rec.user) !in w.kicked
    ensures var w' := Step(w, Commit(ticket, Some(rec))); var r := rec.room; var c := w.pending[ticket].socket;
            && (forall d | d in w.members && d != c ::
                  Received(w'.inbox, d) == Received(w.inbox, d)
                    + (if w.members[d].room == r && Key(r, rec.user) !in w.seats then [PeerJoined(rec.user)] else []))
            && Welcome(w, r, c, Received(w'.inbox, c))
  {
    var c := w.pending[ticket].socket;
    var others := MembersOf(w, rec.room) - {c};
    assert forall d :: d in others <==> d in w.members && d != c && w.members[d].room == rec.room;
    var users := set o | o in others :: w.members[o].user;
    AdmissionInbox(w, ticket, rec);
    hide Step, MembersOf, Send, Received, Possible;
    forall d ensures Received(Send(w.inbox, others, PeerJoined(rec.user)), d) == Received(w.inbox, d) + (if d in others then [PeerJoined(rec.user)] else []) {
      Heard(w.inbox, others, PeerJoined(rec.user), d);
    }
    Welcomed(w, rec.room, c, others);
    hide Welcome;
  }

  // ----- The end of a room's lifetime -----

  /** Without these sockets and seats nobody is left in the room. */
  ghost predicate LeavesEmpty(w: World, gone: set<SocketId>, seats: set<Key>, r: RoomId) {
    && (forall c | c in w.members && c !in gone :: w.members[c].room != r)
    && (forall k | k in w.seats && k !in seats :: k.room != r)
  }

  /** Every trace of the room is gone from `w'` and nothing else is. */
  ghost predicate RoomGone(w: World, w': World, r: RoomId) {
    && w'.tracked == w.tracked - {r} && w'.owners == w.owners - {r} && w'.locked == w.locked - {r}
    && (forall k :: k in w'.kicked <==> k in w.kicked && k.room != r)
    && w'.slugs == w.slugs - {r}
    && (forall s :: s in w'.slugIndex <==> s in w.slugIndex && !(r in w.slugs && s in w.slugs[r]))
    && (forall s | s in w'.slugIndex :: w'.slugIndex[s] == w.slugIndex[s])
  }

  ghost predicate RoomsKept(w: World, w': World) {
    && w'.tracked == w.tracked && w'.owners == w.owners && w'.locked == w.locked && w'.kicked == w.kicked
    && w'.slugs == w.slugs && w'.slugIndex == w.slugIndex
  }

  /** The departure of the last one ends the room's lifetime, any other leaves the rooms as they are. */
  ghost predicate RoomsAfter(w: World, w': World, empties: bool, r: RoomId) {
    if empties then RoomGone(w, w', r) else RoomsKept(w, w')
  }

  lemma CleanupExactly(w: World, r: RoomId)
    ensures RoomsAfter(w, Cleanup(w, r), LeavesEmpty(w, {}, {}, r), r)
    ensures var w' := Cleanup(w, r);
            w'.members == w.members && w'.seats == w.seats && w'.pending == w.pending && w'.hooks == w.hooks && w'.inbox == w.inbox
  {
    assert MembersOf(w, r) == {} && SeatUsers(w, r) == {} <==> LeavesEmpty(w, {}, {}, r) by {
      forall c | c in w.members && w.members[c].room == r ensures c in MembersOf(w, r) {}
      forall k | k in w.seats && k.room == r ensures k.user in SeatUsers(w, r) {}
    }
    hide MembersOf, SeatUsers;
  }

  // ----- Departures -----

  lemma LeaveExactly(w: World, c: SocketId, reason: Reason)
    ensures c !in w.members ==> Step(w, Leave(c, reason)) == w
    ensures c in w.members ==>
              var w' := Step(w, Leave(c, reason)); var m := w.members[c];
              && w'.members == w.members - {c} && w'.seats == w.seats && w'.pending == w.pending
              && w'.hooks == w.hooks + [ParticipantLeft(m.room, SlugOf(w, m.room), m.user, reason)]
              && RoomsAfter(w, w', LeavesEmpty(w, {c}, {}, m.room), m.room)
              && (forall d | d in w'.members ::
                    Received(w'.inbox, d) == Received(w.inbox, d) + (if w.members[d].room == m.room then [PeerLeft(m.user)] else []))
  {
    if c in w.members {
      DepartExactly(w, c, reason);
      assert Step(w, Leave(c, reason)) == Depart(w, c, reason) by { hide Depart; }
      hide Step, Depart;
    }
  }

  lemma DepartExactly(w: World, c: SocketId, reason: Reason)
    requires c in w.members
    ensures var w' := Depart(w, c, reason); var m := w.members[c];
            && w'.members == w.members - {c} && w'.seats == w.seats && w'.pending == w.pending
            && w'.hooks == w.hooks + [ParticipantLeft(m.room, SlugOf(w, m.room), m.user, reason)]
            && RoomsAfter(w, w', LeavesEmpty(w, {c}, {}, m.room), m.room)
            && (forall d ::
                  Received(w'.inbox, d) == Received(w.inbox, d)
                    + (if d in w'.members && w.members[d].room == m.room then [PeerLeft(m.user)] else []))
  {
    var m := w.members[c];
    var w1 := w.(members := w.members - {c});
    var w2 := w1.(inbox := Send(w.inbox, MembersOf(w1, m.room), PeerLeft(m.user)),
                  hooks := w.hooks + [ParticipantLeft(m.room, SlugOf(w, m.room), m.user, reason)]);
    CleanupExactly(w2, m.room);
    assert LeavesEmpty(w2, {}, {}, m.room) <==> LeavesEmpty(w, {c}, {}, m.room);
    assert Depart(w, c, reason) == Cleanup(w2, m.room);
    hide Cleanup, Depart, LeavesEmpty, SlugOf;
    forall d ensures Received(w2.inbox, d) == Received(w.inbox, d) + (if d in w1.members && w1.members[d].room == m.room then [PeerLeft(m.user)] else []) {
      Heard(w.inbox, MembersOf(w1, m.room), PeerLeft(m.user), d);
    }
  }

  lemma Heard(inbox: map<SocketId, seq<Msg>>, to: set<SocketId>, m: Msg, d: SocketId)
    ensures Received(Send(inbox, to, m), d) == Received(inbox, d) + (if d in to then [m] else [])
  {
  }

  /** A seat that lapses is a departure too. */
  lemma ExpiryExactly(w: World, k: Key)
    requires Coherent(w)
    ensures k !in w.seats ==> Step(w, SeatExpires(k)) == w
    ensures k in w.seats ==>
              var w' := Step(w, SeatExpires(k));
              && w'.members == w.members && w'.seats == w.seats - {k} && w'.pending == w.pending
              && w'.hooks == w.hooks + [ParticipantLeft(k.room, SlugOf(w, k.room), k.user, Disconnected)]
              && RoomsAfter(w, w', LeavesEmpty(w, {}, {k}, k.room), k.room)
              && (forall d | d in w'.members ::
                    Received(w'.inbox, d) == Received(w.inbox, d) + (if w.members[d].room == k.room then [PeerLeft(k.user)] else []))
  {
    if k in w.seats {
      assert k.room in w.tracked;
      var w1 := w.(seats := w.seats - {k});
      var w2 := w1.(inbox := Send(w.inbox, MembersOf(w1, k.room), PeerLeft(k.user)),
                    hooks := w.hooks + [ParticipantLeft(k.room, SlugOf(w1, k.room), k.user, Disconnected)]);
      CleanupExactly(w2, k.room);
      assert SlugOf(w1, k.room) == SlugOf(w, k.room);
      assert LeavesEmpty(w2, {}, {}, k.room) <==> LeavesEmpty(w, {}, {k}, k.room);
      assert Step(w, SeatExpires(k)) == Cleanup(w2, k.room);
      hide Cleanup, Step, LeavesEmpty, SlugOf, Coherent;
      forall d | d in w.members
        ensures Received(w2.inbox, d) == Received(w.inbox, d) + (if w.members[d].room == k.room then [PeerLeft(k.user)] else [])
      {
        Heard(w.inbox, MembersOf(w1, k.room), PeerLeft(k.user), d);
      }
    }
  }

  /** A dropped socket takes its seat, and nobody is told. */
  lemma DropExactly(w: World, c: SocketId)
    ensures var w' := Step(w, DropSocket(c));
            && w'.members == w.members - {c}
            && w'.seats == w.seats + (if c in w.members then {Key(w.members[c].room, w.members[c].user)} else {})
            && RoomsKept(w, w') && w'.hooks == w.hooks && w'.inbox == w.inbox && w'.pending == w.pending
  {
    if c !in w.members { assert w.members - {c} == w.members; }
  }

  // ----- Host controls -----

  /** Who may kick whom: the refusals in their order, and what each leaves behind. */
  lemma KickExactly(w: World, requester: SocketId, user: UserId, target: Option<SocketId>)
    requires Possible(w, KickUser(requester, user, target))
    ensures var ack := KickAck(w, requester, target);
            && (ack == NotInRoom <==> requester !in w.members)
            && (ack == MissingCapability <==> requester in w.members && !w.members[requester].canKick)
            && (ack == TargetNotFound <==>
                  requester in w.members && w.members[requester].canKick && (target.None? || target == Some(requester)))
    ensures KickAck(w, requester, target) != Done ==> Step(w, KickUser(requester, user, target)) == w
    ensures KickAck(w, requester, target) == Done ==>
              var w' := Step(w, KickUser(requester, user, target)); var r := w.members[requester].room;
              && target.value in w.members && target.value != requester && w.members[target.value].user == user
              && w.members[target.value].room == r
              && w'.members == w.members - {target.value} && w'.seats == w.seats && w'.pending == w.pending
              && w'.kicked == w.kicked + {Key(r, user)}
              && w'.locked == w.locked && w'.tracked == w.tracked && w'.owners == w.owners
              && w'.slugs == w.slugs && w'.slugIndex == w.slugIndex
              && w'.hooks == w.hooks + [ParticipantLeft(r, SlugOf(w, r), user, WasKicked)]
              && Received(w'.inbox, target.value) == Received(w.inbox, target.value) + [KickedOut(r)]
              && (forall d | d in w'.members ::
                    Received(w'.inbox, d) == Received(w.inbox, d) + (if w.members[d].room == r then [PeerLeft(user)] else []))
  {
    hide Depart;
    if KickAck(w, requester, target).Done? {
      var t := target.value;
      var w1 := Marked(w, requester, t);
      assert Step(w, KickUser(requester, user, target)) == Depart(w1, t, WasKicked);
      DepartExactly(w1, t, WasKicked);
      assert !LeavesEmpty(w1, {t}, {}, w.members[t].room) by { assert requester in w1.members; }
      assert SlugOf(w1, w.members[t].room) == SlugOf(w, w.members[t].room);
      hide Step, SlugOf, LeavesEmpty, Send;
      forall d ensures Received(w1.inbox, d) == Received(w.inbox, d) + (if d == t then [KickedOut(w.members[requester].room)] else []) {
        Heard(w.inbox, {t}, KickedOut(w.members[requester].room), d);
      }
    }
  }

  /** Who may lock; a lock set as it is already is acknowledged without a word. */
  lemma LockExactly(w: World, requester: SocketId, on: bool)
    ensures var ack := LockAck(w, requester);
            && (ack == NotInRoom <==> requester !in w.members)
            && (ack == MissingCapability <==> requester in w.members && !w.members[requester].canLock)
            && (ack == Done <==> requester in w.members && w.members[requester].canLock)
    ensures LockAck(w, requester) != Done ==> Step(w, SetLock(requester, on)) == w
    ensures LockAck(w, requester) == Done ==>
              var w' := Step(w, SetLock(requester, on)); var r := w.members[requester].room;
              && (r in w'.locked <==> on) && (forall q | q != r :: q in w'.locked <==> q in w.locked)
              && w'.members == w.members && w'.seats == w.seats && w'.pending == w.pending && w'.kicked == w.kicked
              && w'.tracked == w.tracked && w'.owners == w.owners && w'.slugs == w.slugs && w'.slugIndex == w.slugIndex
              && w'.hooks == w.hooks
              && (forall d | d in w.members ::
                    Received(w'.inbox, d) == Received(w.inbox, d)
                      + (if w.members[d].room == r && (r in w.locked) != on then [LockChanged(on)] else []))
  {
    if LockAck(w, requester).Done? {
      hide Send, Received, MembersOf;
      LockTells(w, requester, on);
    }
  }

  lemma LockTells(w: World, requester: SocketId, on: bool)
    requires LockAck(w, requester) == Done
    ensures var w' := Lock(w, requester, on); var r := w.members[requester].room;
            forall d | d in w.members ::
              Received(w'.inbox, d) == Received(w.inbox, d)
                + (if w.members[d].room == r && (r in w.locked) != on then [LockChanged(on)] else [])
  {
    var r := w.members[requester].room;
    assert forall d :: d in MembersOf(w, r) <==> d in w.members && w.members[d].room == r;
    hide Send, Received, MembersOf;
    forall d ensures Received(Send(w.inbox, MembersOf(w, r), LockChanged(on)), d)
                       == Received(w.inbox, d) + (if d in MembersOf(w, r) then [LockChanged(on)] else [])
    {
      Heard(w.inbox, MembersOf(w, r), LockChanged(on), d);
    }
  }

  // ----- Ending a room -----

  /** The webhooks of a teardown: one departure after another, in the order given. */
  function Farewells(w: World, r: RoomId, order: seq<SocketId>): (hs: seq<Hook>)
    requires forall c | c in order :: c in w.members
    ensures |hs| == |order|
    ensures forall i | 0 <= i < |order| :: hs[i] == ParticipantLeft(r, SlugOf(w, r), w.members[order[i]].user, RoomEnd)
  {
    seq(|order|, i requires 0 <= i < |order| => ParticipantLeft(r, SlugOf(w, r), w.members[order[i]].user, RoomEnd))
  }

  /** A room without lock, kicks and seats, whose members are torn down in this order. */
  ghost predicate Closing(w: World, r: RoomId, order: seq<SocketId>) {
    && Distinct(order) && (forall c | c in order :: c in w.members && w.members[c].room == r)
    && r !in w.locked && (forall k | k in w.kicked :: k.room != r) && (forall k | k in w.seats :: k.room != r)
  }

  /** `w'` is `w` after these members of the room, some but not all, have been torn down. */
  ghost predicate TornDown(w: World, w': World, r: RoomId, order: seq<SocketId>)
    requires forall c | c in order :: c in w.members
  {
    && w'.members == w.members - (set c | c in order) && w'.seats == w.seats && w'.pending == w.pending
    && RoomsKept(w, w') && w'.hooks == w.hooks + Farewells(w, r, order)
    && OnlyTold(w, w', r)
  }

  /** No one loses a message, and members of other rooms hear nothing. */
  ghost predicate OnlyTold(w: World, w': World, r: RoomId) {
    forall d :: Received(w.inbox, d) <= Received(w'.inbox, d)
                && (d in w.members && w.members[d].room != r ==> Received(w'.inbox, d) == Received(w.inbox, d))
  }

  lemma FarewellsSnoc(w: World, r: RoomId, before: seq<SocketId>, c: SocketId)
    requires (forall d | d in before + [c] :: d in w.members) && (forall d | d in before :: d in w.members)
    ensures Farewells(w, r, before + [c]) == Farewells(w, r, before) + [ParticipantLeft(r, SlugOf(w, r), w.members[c].user, RoomEnd)]
    ensures w.members - (set d | d in before + [c]) == w.members - (set d | d in before) - {c}
  {
    hide SlugOf;
  }

  lemma RoomsCompose(w: World, w1: World, w2: World, empties: bool, r: RoomId)
    requires RoomsKept(w, w1) && RoomsAfter(w1, w2, empties, r)
    ensures RoomsAfter(w, w2, empties, r)
  {
  }

  /** One more departure is told in the room only. */
  lemma ToldOne(w: World, w1: World, c: SocketId, r: RoomId)
    requires OnlyTold(w, w1, r) && c in w1.members && w1.members[c].room == r
    requires forall d | d in w1.members :: d in w.members && w1.members[d] == w.members[d]
    ensures OnlyTold(w, Depart(w1, c, RoomEnd), r)
  {
    DepartExactly(w1, c, RoomEnd);
    hide Depart, SlugOf, LeavesEmpty, RoomsAfter, Received;
  }

  lemma TearDownOne(w: World, w1: World, r: RoomId, before: seq<SocketId>, c: SocketId)
    requires Closing(w, r, before + [c]) && (forall d | d in before :: d in w.members) && TornDown(w, w1, r, before)
    ensures var w2 := Depart(w1, c, RoomEnd);
            && w2.members == w.members - (set d | d in before + [c]) && w2.seats == w.seats && w2.pending == w.pending
            && w2.hooks == w.hooks + Farewells(w, r, before + [c])
            && RoomsAfter(w, w2, LeavesEmpty(w1, {c}, {}, r), r) && OnlyTold(w, w2, r)
  {
    hide Depart, Farewells, LeavesEmpty, RoomsAfter, OnlyTold;
    assert SlugOf(w1, r) == SlugOf(w, r);
    assert c in w.members && w.members[c].room == r by { assert c in before + [c]; }
    assert c !in before by { DistinctLast(before, c); }
    assert c in w1.members && w1.members[c] == w.members[c];
    FarewellsSnoc(w, r, before, c);
    DepartExactly(w1, c, RoomEnd);
    hide SlugOf, Closing, RoomsKept, Received;
    RoomsCompose(w, w1, Depart(w1, c, RoomEnd), LeavesEmpty(w1, {c}, {}, r), r);
    ToldOne(w, w1, c, r);
  }

  lemma DistinctLast(before: seq<SocketId>, c: SocketId)
    requires Distinct(before + [c])
    ensures c !in before && Distinct(before)
  {
    forall i | 0 <= i < |before| ensures before[i] != c { assert (before + [c])[i] != (before + [c])[|before|]; }
    forall i, j | 0 <= i < j < |before| ensures before[i] != before[j] { assert (before + [c])[i] != (before + [c])[j]; }
  }

  /** As long as one member is still to come, the room stays as it is. */
  lemma {:induction false} TearDownBegun(w: World, r: RoomId, order: seq<SocketId>, last: SocketId)
    requires Closing(w, r, order) && last in w.members && w.members[last].room == r && last !in order
    ensures TornDown(w, DepartAll(w, order, RoomEnd), r, order)
    decreases |order|
  {
    if order == [] {
      assert w.members - {} == w.members && w.hooks + [] == w.hooks;
    } else {
      var n := |order| - 1;
      var before, c := order[..n], order[n];
      assert order == before + [c];
      DistinctLast(before, c);
      TearDownBegun(w, r, before, last);
      var w1 := DepartAll(w, before, RoomEnd);
      TearDownOne(w, w1, r, before, c);
      assert last in w1.members && w1.members[last].room == r && last != c;
      hide Depart, Farewells, SlugOf, Closing, OnlyTold;
    }
  }

  /** The last departure ends the room's lifetime. */
  lemma TearDownAll(w: World, r: RoomId, order: seq<SocketId>)
    requires Closing(w, r, order) && order != [] && forall c | c in w.members && w.members[c].room == r :: c in order
    ensures var w' := DepartAll(w, order, RoomEnd);
            && w'.members == w.members - (set c | c in order) && w'.seats == w.seats && w'.pending == w.pending
            && RoomGone(w, w', r) && w'.hooks == w.hooks + Farewells(w, r, order) && OnlyTold(w, w', r)
  {
    var n := |order| - 1;
    var before, c := order[..n], order[n];
    assert order == before + [c];
    DistinctLast(before, c);
    var w1 := DepartAll(w, before, RoomEnd);
    TearDownBegun(w, r, before, c);
    TearDownOne(w, w1, r, before, c);
    assert LeavesEmpty(w1, {c}, {}, r) by { hide Depart, Farewells, OnlyTold, DepartAll; }
    hide Depart, Farewells, SlugOf, Closing, OnlyTold, LeavesEmpty;
  }

  /** What is left of the room's members, and of its lock, kicks and seats: nothing; of the other rooms': everything. */
  ghost predicate RoomEndedIn(w: World, w': World, r: RoomId) {
    && (forall c :: c in w'.members <==> c in w.members && w.members[c].room != r)
    && (forall c | c in w'.members :: w'.members[c] == w.members[c])
    && w'.locked == w.locked - {r}
    && (forall k :: k in w'.kicked <==> k in w.kicked && k.room != r)
    && (forall k :: k in w'.seats <==> k in w.seats && k.room != r)
    && w'.pending == w.pending
  }

  /**
   The end of a room: its members, seats, lock and kicks go and no other room's; the members' departures
   and then the end itself are reported; every member hears it first. Owner and slugs go with the last
   member, and stay if there was none.
   */
  lemma EndExactly(w: World, r: RoomId, order: seq<SocketId>)
    requires Possible(w, End(r, order))
    ensures (forall c | c in order :: c in w.members)
    ensures var w' := Step(w, End(r, order));
            && RoomEndedIn(w, w', r)
            && w'.hooks == w.hooks + Farewells(w, r, order) + [RoomEnded(r, SlugOf(w, r))]
            && (if order == []
                then w'.tracked == w.tracked && w'.owners == w.owners && w'.slugs == w.slugs && w'.slugIndex == w.slugIndex
                else RoomGone(w, w', r))
            && (forall c | c in w'.members :: Received(w'.inbox, c) == Received(w.inbox, c))
            && (forall c | c in order :: Received(w.inbox, c) + [RoomClosed(r)] <= Received(w'.inbox, c))
  {
    if order == [] { EndVacant(w, r); } else { EndOccupied(w, r, order); }
  }

  lemma EndVacant(w: World, r: RoomId)
    requires Possible(w, End(r, []))
    ensures var w' := Step(w, End(r, []));
            && RoomEndedIn(w, w', r) && w'.hooks == w.hooks + Farewells(w, r, []) + [RoomEnded(r, SlugOf(w, r))]
            && w'.tracked == w.tracked && w'.owners == w.owners && w'.slugs == w.slugs && w'.slugIndex == w.slugIndex
            && w'.inbox == w.inbox
  {
    assert forall c | c in w.members && w.members[c].room == r :: c in MembersOf(w, r);
    assert w.hooks + Farewells(w, r, []) == w.hooks;
    hide SlugOf, Farewells, MembersOf;
  }

  /** What the teardown starts from: no lock, kicks or seats of the room. */
  ghost predicate Lapsed(w: World, w1: World, r: RoomId) {
    && w1.members == w.members && w1.hooks == w.hooks && w1.pending == w.pending
    && w1.tracked == w.tracked && w1.owners == w.owners && w1.slugs == w.slugs && w1.slugIndex == w.slugIndex
    && w1.locked == w.locked - {r}
    && (forall k :: k in w1.kicked <==> k in w.kicked && k.room != r)
    && (forall k :: k in w1.seats <==> k in w.seats && k.room != r)
  }

  lemma LapseExactly(w: World, r: RoomId)
    ensures Lapsed(w, Lapse(w, r), r) && Lapse(w, r).inbox == w.inbox
  {
  }

  lemma LapsedCloses(w: World, w1: World, r: RoomId, order: seq<SocketId>)
    requires Lapsed(w, w1, r) && Distinct(order) && forall c :: c in order <==> c in w.members && w.members[c].room == r
    ensures Closing(w1, r, order) && forall c | c in w1.members && w1.members[c].room == r :: c in order
  {
  }

  lemma EndsRoom(w: World, w1: World, w2: World, r: RoomId, order: seq<SocketId>)
    requires Lapsed(w, w1, r) && (forall c :: c in order <==> c in w.members && w.members[c].room == r)
    requires RoomGone(w1, w2, r) && w2.members == w.members - (set c | c in order) && w2.seats == w1.seats && w2.pending == w.pending
    ensures RoomEndedIn(w, w2, r) && RoomGone(w, w2, r)
  {
  }

  lemma SameFarewells(w: World, w1: World, r: RoomId, order: seq<SocketId>)
    requires w1.members == w.members && w1.slugs == w.slugs && forall c | c in order :: c in w.members
    ensures Farewells(w1, r, order) == Farewells(w, r, order)
  {
    assert SlugOf(w1, r) == SlugOf(w, r);
    hide SlugOf;
  }

  lemma EndSteps(w: World, r: RoomId, order: seq<SocketId>)
    requires Possible(w, End(r, order)) && order != []
    ensures var w1 := Lapse(w, r).(inbox := Send(w.inbox, MembersOf(w, r), RoomClosed(r)));
            var w2 := DepartAll(w1, order, RoomEnd);
            Step(w, End(r, order)) == w2.(hooks := w2.hooks + [RoomEnded(r, SlugOf(w, r))])
    ensures Distinct(order) && forall c :: c in order <==> c in w.members && w.members[c].room == r
  {
    hide DepartAll, Send, SlugOf;
    assert forall c :: c in order <==> c in MembersOf(w, r);
  }

  lemma EndOccupied(w: World, r: RoomId, order: seq<SocketId>)
    requires Possible(w, End(r, order)) && order != []
    ensures (forall c | c in order :: c in w.members)
    ensures var w' := Step(w, End(r, order));
            && RoomEndedIn(w, w', r)
            && w'.hooks == w.hooks + Farewells(w, r, order) + [RoomEnded(r, SlugOf(w, r))]
            && RoomGone(w, w', r)
            && (forall c | c in w'.members :: Received(w'.inbox, c) == Received(w.inbox, c))
            && (forall c | c in order :: Received(w.inbox, c) + [RoomClosed(r)] <= Received(w'.inbox, c))
  {
    hide *;
    EndSteps(w, r, order);
    LapseExactly(w, r);
    var w1 := Lapse(w, r).(inbox := Send(w.inbox, MembersOf(w, r), RoomClosed(r)));
    var w2 := DepartAll(w1, order, RoomEnd);
    SameLapse(w, Lapse(w, r), w1, r);
    LapsedCloses(w, w1, r, order);
    TearDownAll(w1, r, order);
    SameFarewells(w, w1, r, order);
    EndsRoom(w, w1, w2, r, order);
    EndTold(w, w1, w2, r, order);
    AnnouncedEnd(w, w2, r, RoomEnded(r, SlugOf(w, r)));
  }

  lemma SameLapse(w: World, w0: World, w1: World, r: RoomId)
    requires Lapsed(w, w0, r) && w1 == w0.(inbox := w1.inbox)
    ensures Lapsed(w, w1, r) && w1.members == w.members && w1.slugs == w.slugs && w1.hooks == w.hooks && w1.pending == w.pending
  {
  }

  /** The last webhook changes nothing else. */
  lemma AnnouncedEnd(w: World, w2: World, r: RoomId, h: Hook)
    requires RoomEndedIn(w, w2, r) && RoomGone(w, w2, r)
    ensures var w' := w2.(hooks := w2.hooks + [h]); RoomEndedIn(w, w', r) && RoomGone(w, w', r)
  {
  }

  lemma EndTold(w: World, w1: World, w2: World, r: RoomId, order: seq<SocketId>)
    requires w1.inbox == Send(w.inbox, MembersOf(w, r), RoomClosed(r)) && w1.members == w.members && OnlyTold(w1, w2, r)
    requires w2.members == w.members - (set c | c in order)
    requires forall c :: c in order <==> c in w.members && w.members[c].room == r
    ensures forall c | c in w2.members :: Received(w2.inbox, c) == Received(w.inbox, c)
    ensures forall c | c in order :: Received(w.inbox, c) + [RoomClosed(r)] <= Received(w2.inbox, c)
  {
    forall c ensures Received(w1.inbox, c) == Received(w.inbox, c) + (if c in MembersOf(w, r) then [RoomClosed(r)] else []) {
      Heard(w.inbox, MembersOf(w, r), RoomClosed(r), c);
    }
    hide Send, Received;
  }

  /** A room that was just ended can be joined: nothing refuses the join, at its beginning or after the credential. */
  lemma EndReopens(w: World, r: RoomId, order: seq<SocketId>, ticket: Ticket, request: Request, rec: Record)
    requires Possible(w, End(r, order)) && ticket !in w.pending && request.room == r == rec.room
    requires request.socket in w.members ==> w.members[request.socket].room == r
    ensures var w' := Step(w, End(r, order));
            && Possible(w', Begin(ticket, request))
            && Step(w', Begin(ticket, request)).pending == w.pending[ticket := request]
            && Possible(Step(w', Begin(ticket, request)), Commit(ticket, Some(rec)))
            && Step(Step(w', Begin(ticket, request)), Commit(ticket, Some(rec))).members == w'.members[request.socket := rec]
  {
    var w' := Step(w, End(r, order));
    EndExactly(w, r, order);
    hide *;
    JoinEmptied(w, w', r, ticket, request, rec);
  }

  lemma JoinEmptied(w: World, w': World, r: RoomId, ticket: Ticket, request: Request, rec: Record)
    requires RoomEndedIn(w, w', r) && ticket !in w.pending && request.room == r == rec.room
    requires request.socket in w.members ==> w.members[request.socket].room == r
    ensures Possible(w', Begin(ticket, request))
    ensures Step(w', Begin(ticket, request)).pending == w.pending[ticket := request]
    ensures Possible(Step(w', Begin(ticket, request)), Commit(ticket, Some(rec)))
    ensures Step(Step(w', Begin(ticket, request)), Commit(ticket, Some(rec))).members == w'.members[request.socket := rec]
  {
    var w1 := w'.(pending := w'.pending[ticket := request]);
    assert Step(w', Begin(ticket, request)) == w1;
    LockIgnoredAtCommit(w1, ticket, rec);
    hide Step;
  }
}
