/**
 RoomPresenceService: the maps, reverse indexes and grace timers behind the presence machine.
 Valid() is the coherence of those indexes; every operation keeps it and performs exactly one
 event of PresenceModel on the abstract state.
 */
module RoomPresence {
  import opened Common
  import opened M = PresenceModel
  import opened PresenceIndexes
  import opened PresenceEffects

  datatype JoinOutcome = NoCredential | KickedFromRoom | Joined(restoredSeat: bool)

  class RoomPresenceService {
    var records: map<SocketId, Record>
    var rooms: map<RoomId, seq<SocketId>>
    var roomOwners: map<RoomId, UserId>
    var roomLocks: map<RoomId, bool>
    var slugToRoomId: map<Slug, RoomId>
    var roomIdToSlugs: map<RoomId, seq<Slug>>
    var heldSeatsByRoom: map<RoomId, set<Key>>
    var heldSeats: map<Key, HeldSeat>
    var kickedUsers: map<RoomId, set<UserId>>

    // The runtime's share of the state: armed grace timers and joins suspended on a lookup.
    var timers: map<TimerId, Key>
    var suspended: map<Ticket, Request>

    // What the service has said so far.
    ghost var hooks: seq<Hook>
    ghost var inbox: map<SocketId, seq<Msg>>
    ghost var heldAtJoin: map<SocketId, set<UserId>>
    ghost var silent: multiset<Key>
    ghost var replaced: multiset<Key>

    // ----- Invariant -----

    ghost predicate Valid()
      reads this
    {
      && RoomsOk(records, rooms)
      && SeatsOk(heldSeats, heldSeatsByRoom)
      && TimersOk(heldSeats, timers)
      && SlugsOk(slugToRoomId, roomIdToSlugs)
      && NoResidue(rooms, roomOwners, roomLocks, kickedUsers, roomIdToSlugs, heldSeatsByRoom)
    }

    // ----- Abstraction -----

    ghost function Abs(): World
      reads this
    {
      World(records, heldSeats.Keys, rooms.Keys, LockedIn(roomLocks), KickedIn(kickedUsers), roomOwners,
            roomIdToSlugs, slugToRoomId, suspended, hooks, inbox, heldAtJoin, silent, replaced)
    }

    constructor ()
      ensures Valid() && Abs() == EMPTY
    {
      records, rooms, roomOwners, roomLocks := map[], map[], map[], map[];
      slugToRoomId, roomIdToSlugs := map[], map[];
      heldSeatsByRoom, heldSeats, kickedUsers := map[], map[], map[];
      timers, suspended := map[], map[];
      hooks, inbox, heldAtJoin, silent, replaced := [], map[], map[], multiset{}, multiset{};
    }

    // ----- Index helpers -----

    function ListPeerSockets(r: RoomId): seq<SocketId>
      reads this`rooms
    {
      Peers(rooms, r)
    }

    predicate RoomHasHeldSeat(r: RoomId)
      reads this`heldSeatsByRoom
    {
      r in heldSeatsByRoom && heldSeatsByRoom[r] != {}
    }

    function FindRoomSlug(r: RoomId): Option<Slug>
      reads this`roomIdToSlugs
    {
      if r in roomIdToSlugs && roomIdToSlugs[r] != [] then Some(roomIdToSlugs[r][0]) else None
    }

    /** The indexes answer the questions the abstract state asks. */
    lemma IndexesFaithful(r: RoomId)
      requires Valid()
      ensures (ListPeerSockets(r) != []) <==> MembersOf(Abs(), r) != {}
      ensures RoomHasHeldSeat(r) <==> SeatUsers(Abs(), r) != {}
      ensures forall c :: c in ListPeerSockets(r) <==> c in MembersOf(Abs(), r)
      ensures FindRoomSlug(r) == SlugOf(Abs(), r)
    {
      if ListPeerSockets(r) != [] { assert rooms[r][0] in MembersOf(Abs(), r); }
      if RoomHasHeldSeat(r) {
        var k :| k in heldSeatsByRoom[r];
        assert k.user in SeatUsers(Abs(), r);
      }
    }

    lemma RecipientsFaithful(r: RoomId, exclude: Option<SocketId>)
      requires Valid()
      ensures Recipients(ListPeerSockets(r), exclude)
           == MembersOf(Abs(), r) - (if exclude.Some? then {exclude.value} else {})
    {
      IndexesFaithful(r);
      hide RoomsOk, SeatsOk, TimersOk, SlugsOk;
    }

    method IndexHeldSeat(r: RoomId, key: Key)
      modifies this`heldSeatsByRoom
      ensures heldSeatsByRoom == Indexed(old(heldSeatsByRoom), r, key)
    {
      if r in heldSeatsByRoom {
        heldSeatsByRoom := heldSeatsByRoom[r := heldSeatsByRoom[r] + {key}];
      } else {
        heldSeatsByRoom := heldSeatsByRoom[r := {} + {key}];
      }
    }

    method UnindexHeldSeat(r: RoomId, key: Key)
      modifies this`heldSeatsByRoom
      ensures heldSeatsByRoom == Unindexed(old(heldSeatsByRoom), r, key)
    {
      if r !in heldSeatsByRoom { return; }
      var keys := heldSeatsByRoom[r] - {key};
      if |keys| == 0 {
        heldSeatsByRoom := heldSeatsByRoom - {r};
      } else {
        heldSeatsByRoom := heldSeatsByRoom[r := keys];
      }
    }

    /** Takes a seat out of the map, the per-room index and the timer queue. */
    method ReleaseSeat(key: Key)
      requires Valid() && key in heldSeats
      modifies this`heldSeats, this`heldSeatsByRoom, this`timers
      ensures Valid() && heldSeats == old(heldSeats) - {key}
    {
      hide SeatsOk, TimersOk, RoomsOk, SlugsOk;
      SeatReleased(heldSeats, heldSeatsByRoom, timers, key);
      timers := timers - {heldSeats[key].timer};
      heldSeats := heldSeats - {key};
      UnindexHeldSeat(key.room, key);
    }

    // ----- Fan-out -----

    lemma SendToNobody(box: map<SocketId, seq<Msg>>, peers: seq<SocketId>, exclude: Option<SocketId>, m: Msg)
      ensures Send(box, Recipients(peers[..0], exclude), m) == box
    {
    }

    /** One message to every member of the room, except possibly one. */
    method BroadcastToRoom(r: RoomId, m: Msg, exclude: Option<SocketId>)
      requires RoomsOk(records, rooms)
      modifies this`inbox
      ensures inbox == Send(old(inbox), Recipients(ListPeerSockets(r), exclude), m)
    {
      var peers := ListPeerSockets(r);
      assert Distinct(peers) && forall c | c in peers :: c in records;
      SendToNobody(inbox, peers, exclude, m);
      hide RoomsOk, Send, Recipients, ListPeerSockets, Distinct;
      var i := 0;
      while i < |peers|
        invariant 0 <= i <= |peers|
        invariant inbox == Send(old(inbox), Recipients(peers[..i], exclude), m)
      {
        SendOneMore(old(inbox), peers, i, exclude, m);
        if exclude != Some(peers[i]) && peers[i] in records {
          inbox := Send(inbox, {peers[i]}, m);
        }
        i := i + 1;
      }
      assert peers[..i] == peers;
    }

    method TellRoom(r: RoomId, m: Msg, exclude: Option<SocketId>)
      requires Valid()
      modifies this`inbox
      ensures Valid()
      ensures var w := old(Abs());
              Abs() == w.(inbox := Send(w.inbox, MembersOf(w, r) - (if exclude.Some? then {exclude.value} else {}), m))
    {
      RecipientsFaithful(r, exclude);
      hide Send, Recipients, SeatsOk, TimersOk, SlugsOk, MembersOf, KickedIn, LockedIn;
      BroadcastToRoom(r, m, exclude);
    }

    /** A departure is told to the remaining members and to the webhooks. */
    method Announce(r: RoomId, m: Msg, hook: Hook)
      requires Valid()
      modifies this`inbox, this`hooks
      ensures Valid()
      ensures var w := old(Abs());
              Abs() == w.(inbox := Send(w.inbox, MembersOf(w, r), m), hooks := w.hooks + [hook])
    {
      hide Send, RoomsOk, SeatsOk, TimersOk, SlugsOk, MembersOf, KickedIn, LockedIn;
      assert MembersOf(Abs(), r) - {} == MembersOf(Abs(), r);
      TellRoom(r, m, None);
      hooks := hooks + [hook];
    }

    // ----- Departure funnel -----

    method DetachPeer(c: SocketId)
      requires Valid()
      modifies this`records, this`rooms
      ensures Valid()
      ensures Abs() == old(Abs()).(members := old(Abs()).members - {c})
    {
      if c in records {
        RoomsDetach(records, rooms, c);
        var r := records[c].room;
        assert r in rooms;
        hide RoomsOk, SeatsOk, TimersOk, SlugsOk, KickedIn, LockedIn;
        records := records - {c};
        rooms := rooms[r := Without(rooms[r], c)];
        assert rooms.Keys == old(rooms).Keys;
      } else {
        assert records - {c} == records;
      }
    }

    /** Drops a room's slugs from both directions of the slug index. */
    method ForgetSlugs(r: RoomId)
      modifies this`slugToRoomId, this`roomIdToSlugs
      ensures slugToRoomId == old(slugToRoomId) - SlugSet(old(roomIdToSlugs), r)
      ensures roomIdToSlugs == old(roomIdToSlugs) - {r}
    {
      var slugs := if r in roomIdToSlugs then roomIdToSlugs[r] else [];
      var i := 0;
      while i < |slugs|
        modifies this`slugToRoomId
        invariant 0 <= i <= |slugs|
        invariant slugToRoomId == old(slugToRoomId) - (set s | s in slugs[..i])
      {
        assert slugs[..i + 1] == slugs[..i] + [slugs[i]];
        slugToRoomId := slugToRoomId - {slugs[i]};
        i := i + 1;
      }
      assert slugs[..i] == slugs;
      assert (set s | s in slugs) == SlugSet(old(roomIdToSlugs), r);
      roomIdToSlugs := roomIdToSlugs - {r};
    }

    /** The room's lifetime ends: everything that belongs to it goes. */
    method CloseRoom(r: RoomId)
      requires Valid() && Peers(rooms, r) == [] && r !in heldSeatsByRoom
      modifies this`rooms, this`roomOwners, this`roomLocks, this`kickedUsers, this`slugToRoomId, this`roomIdToSlugs
      ensures Valid()
      ensures rooms == old(rooms) - {r} && roomOwners == old(roomOwners) - {r}
      ensures roomLocks == old(roomLocks) - {r} && kickedUsers == old(kickedUsers) - {r}
      ensures roomIdToSlugs == old(roomIdToSlugs) - {r}
      ensures slugToRoomId == old(slugToRoomId) - SlugSet(old(roomIdToSlugs), r)
    {
      hide RoomsOk, SeatsOk, TimersOk, SlugsOk, SlugSet, NoResidue;
      RoomsClose(records, rooms, r);
      SlugsForgotten(slugToRoomId, roomIdToSlugs, r);
      ResidueCleared(rooms, roomOwners, roomLocks, kickedUsers, roomIdToSlugs, heldSeatsByRoom, r);
      rooms := rooms - {r};
      roomOwners := roomOwners - {r};
      roomLocks := roomLocks - {r};
      kickedUsers := kickedUsers - {r};
      ForgetSlugs(r);
    }

    method CleanupRoomIfEmpty(r: RoomId)
      requires Valid()
      modifies this
      ensures Valid() && Abs() == Cleanup(old(Abs()), r)
    {
      hide MembersOf, SeatUsers, KickedIn, LockedIn, RoomsOk, SeatsOk, TimersOk, SlugsOk, NoResidue, FindRoomSlug, SlugOf;
      IndexesFaithful(r);
      NoEmptyBucket(heldSeats, heldSeatsByRoom);
      KicksForgotten(kickedUsers, r);
      LockForgotten(roomLocks, r);
      hide Valid;
      if |ListPeerSockets(r)| > 0 { return; }
      if RoomHasHeldSeat(r) { return; }
      CloseRoom(r);
    }

    method Depart(c: SocketId, reason: Reason)
      requires Valid()
      modifies this
      ensures Valid() && Abs() == M.Depart(old(Abs()), c, reason)
    {
      if c !in records { return; }
      var m := records[c];
      DetachPeer(c);
      IndexesFaithful(m.room);
      hide MembersOf, SeatUsers, Send, Cleanup, Valid, Abs;
      Announce(m.room, PeerLeft(m.user), ParticipantLeft(m.room, FindRoomSlug(m.room), m.user, reason));
      CleanupRoomIfEmpty(m.room);
    }

    // ----- Join -----

    /** The part of `join` before the credential lookup. */
    method BeginJoin(ticket: Ticket, request: Request) returns (roomLocked: bool)
      requires Valid() && ticket !in suspended
      modifies this
      ensures Valid() && Abs() == Step(old(Abs()), Begin(ticket, request))
      ensures roomLocked <==> request.room in old(Abs()).locked
    {
      roomLocked := request.room in roomLocks && roomLocks[request.room];
      hide RoomsOk, SeatsOk, TimersOk, SlugsOk, NoResidue;
      if !roomLocked {
        suspended := suspended[ticket := request];
      }
    }

    /** A same-user rejoin takes its grace seat back; `restored` says whether there was one. */
    method RestoreSeat(key: Key) returns (restored: bool)
      requires Valid()
      modifies this`heldSeats, this`heldSeatsByRoom, this`timers
      ensures Valid() && Abs() == old(Abs()).(seats := old(Abs()).seats - {key})
      ensures restored <==> key in old(Abs()).seats
    {
      restored := key in heldSeats;
      if restored {
        ReleaseSeat(key);
        assert heldSeats.Keys == old(heldSeats).Keys - {key};
      } else {
        assert heldSeats.Keys - {key} == heldSeats.Keys;
      }
    }

    ghost method RecordReplaced(keys: multiset<Key>)
      requires Valid()
      modifies this`replaced
      ensures Valid() && Abs() == old(Abs()).(replaced := old(Abs()).replaced + keys)
    {
      hide RoomsOk, SeatsOk, SlugsOk, TimersOk, NoResidue, KickedIn, LockedIn;
      replaced := replaced + keys;
    }

    /** The record is stored, in place of an earlier one of the socket, and the socket is in the room's set once. */
    method EnterRoom(c: SocketId, rec: Record)
      requires Valid() && (c in records ==> records[c].room == rec.room)
      modifies this`records, this`rooms, this`replaced
      ensures Valid()
      ensures var w := old(Abs());
              Abs() == w.(members := w.members[c := rec], tracked := w.tracked + {rec.room}, replaced := w.replaced + ReplacedBy(w, c))
    {
      ghost var overwritten := ReplacedBy(Abs(), c);
      StoreRecord(c, rec);
      hide Valid, Abs, ReplacedBy;
      RecordReplaced(overwritten);
    }

    method StoreRecord(c: SocketId, rec: Record)
      requires Valid() && (c in records ==> records[c].room == rec.room)
      modifies this`records, this`rooms
      ensures Valid()
      ensures Abs() == old(Abs()).(members := old(Abs()).members[c := rec], tracked := old(Abs()).tracked + {rec.room})
    {
      hide RoomsOk, SeatsOk, TimersOk, SlugsOk, KickedIn, LockedIn;
      RejoinExactly(records, rooms, c, rec);
      records := records[c := rec];
      if rec.room !in rooms {
        rooms := rooms[rec.room := []];
      }
      if c !in rooms[rec.room] {
        rooms := rooms[rec.room := rooms[rec.room] + [c]];
      }
      ghost var peers := Peers(old(rooms), rec.room);
      assert rooms == old(rooms)[rec.room := if c in peers then peers else peers + [c]];
      assert rooms.Keys == old(rooms).Keys + {rec.room};
    }

    method RecordOwnerAndSlug(rec: Record, slug: Option<Slug>)
      requires Valid() && rec.room in rooms
      modifies this`roomOwners, this`slugToRoomId, this`roomIdToSlugs
      ensures Valid() && Abs() == Filed(old(Abs()), rec, slug)
    {
      hide RoomsOk, SeatsOk, TimersOk, SlugsOk, KickedIn, LockedIn, AddSlug;
      if slug.Some? { SlugAdded(slugToRoomId, roomIdToSlugs, rec.room, slug.value); }
      if rec.ownsRoom {
        roomOwners := roomOwners[rec.room := rec.user];
      }
      if slug.Some? {
        slugToRoomId := slugToRoomId[slug.value := rec.room];
        if rec.room in roomIdToSlugs {
          roomIdToSlugs := roomIdToSlugs[rec.room := AddSlug(roomIdToSlugs[rec.room], slug.value)];
        } else {
          roomIdToSlugs := roomIdToSlugs[rec.room := AddSlug([], slug.value)];
        }
      }
      assert SlugsOk(slugToRoomId, roomIdToSlugs);
    }

    lemma ExistingFaithful(c: SocketId, r: RoomId)
      requires Valid()
      ensures var existing := set o | o in ListPeerSockets(r) && o != c && o in records :: records[o].user;
              var others := MembersOf(Abs(), r) - {c};
              existing == (set o | o in others :: records[o].user) && (existing == {} <==> others == {})
    {
      IndexesFaithful(r);
      hide RoomsOk, SeatsOk, TimersOk, SlugsOk, NoResidue, KickedIn, LockedIn, ListPeerSockets;
      var existing := set o | o in ListPeerSockets(r) && o != c && o in records :: records[o].user;
      var others := MembersOf(Abs(), r) - {c};
      forall o | o in others ensures records[o].user in existing {}
    }

    /** The joiner hears of the members already there; its roster starts over. */
    method Greet(c: SocketId, r: RoomId, ghost held: set<UserId>)
      requires Valid()
      modifies this`inbox, this`heldAtJoin
      ensures Valid() && Abs() == Greeted(old(Abs()), c, r, held)
    {
      ExistingFaithful(c, r);
      var peers := ListPeerSockets(r);
      hide RoomsOk, SeatsOk, TimersOk, SlugsOk, KickedIn, LockedIn, NoResidue, ListPeerSockets, MembersOf;
      var existing := set o | o in peers && o != c && o in records :: records[o].user;
      inbox := inbox[c := if existing != {} then [ExistingPeers(existing)] else []];
      heldAtJoin := heldAtJoin[c := held];
    }

    /** The part of `join` after the credential lookup. */
    method CommitJoin(ticket: Ticket, credential: Option<Record>) returns (outcome: JoinOutcome)
      requires Valid() && Possible(Abs(), Commit(ticket, credential))
      modifies this
      ensures Valid() && Abs() == Step(old(Abs()), Commit(ticket, credential))
      ensures outcome == if credential.None? then NoCredential
                         else if Key(credential.value.room, credential.value.user) in old(Abs()).kicked then KickedFromRoom
                         else Joined(Key(credential.value.room, credential.value.user) in old(Abs()).seats)
    {
      var request := suspended[ticket];
      Resume(ticket);
      if credential.None? { return NoCredential; }
      var rec := credential.value;
      KickLookup(rec.room, rec.user);
      if rec.room in kickedUsers && rec.user in kickedUsers[rec.room] { return KickedFromRoom; }
      var restored := Admission(request.socket, rec, request.slug);
      outcome := Joined(restored);
    }

    method Resume(ticket: Ticket)
      requires Valid() && ticket in suspended
      modifies this`suspended
      ensures Valid() && Abs() == old(Abs()).(pending := old(Abs()).pending - {ticket})
    {
      hide RoomsOk, SeatsOk, TimersOk, SlugsOk, NoResidue;
      suspended := suspended - {ticket};
    }

    lemma KickLookup(r: RoomId, u: UserId)
      ensures (r in kickedUsers && u in kickedUsers[r]) <==> Key(r, u) in Abs().kicked
    {
    }

    method Admission(c: SocketId, rec: Record, slug: Option<Slug>) returns (restored: bool)
      requires Valid() && Key(rec.room, rec.user) !in Abs().kicked && (c in records ==> records[c].room == rec.room)
      modifies this
      ensures Valid() && Abs() == Admit(old(Abs()), c, rec, slug)
      ensures restored <==> Key(rec.room, rec.user) in old(Abs()).seats
    {
      hide MembersOf, SeatUsers, Send, Greeted, Hooked, Filed, Admit, RoomsOk, SeatsOk, TimersOk, SlugsOk, NoResidue, KickedIn, LockedIn;
      ghost var w := Abs();
      AdmitByParts(w, c, rec, slug);
      restored := RestoreSeat(Key(rec.room, rec.user));
      IndexesFaithful(rec.room);
      var firstPeer := ListPeerSockets(rec.room) == [] && !RoomHasHeldSeat(rec.room);
      ghost var held := SeatUsers(Abs(), rec.room);
      EnterRoom(c, rec);
      assert rec.room in rooms && Abs() == Entered(w, c, rec);
      RecordOwnerAndSlug(rec, slug);
      hide Valid, Abs, Entered;
      if !restored { TellRoom(rec.room, PeerJoined(rec.user), Some(c)); }
      Greet(c, rec.room, held);
      EmitJoinHooks(firstPeer, restored, rec, slug);
    }

    method EmitJoinHooks(firstPeer: bool, restored: bool, rec: Record, slug: Option<Slug>)
      requires Valid()
      modifies this`hooks
      ensures Valid()
      ensures Abs() == Hooked(old(Abs()), firstPeer, restored, rec, slug)
    {
      hide RoomsOk, SeatsOk, TimersOk, SlugsOk, NoResidue, KickedIn, LockedIn;
      if firstPeer {
        hooks := hooks + [RoomStarted(rec.room, slug)];
      } else {
        assert hooks + [] == hooks;
      }
      if !restored {
        hooks := hooks + [ParticipantJoined(rec.room, slug, rec.user)];
      } else {
        assert hooks + [] == hooks;
      }
    }

    // ----- Leave, drop and expiry -----

    method Leave(c: SocketId, reason: Reason)
      requires Valid()
      modifies this
      ensures Valid() && Abs() == Step(old(Abs()), Event.Leave(c, reason))
    {
      hide Valid, Abs, M.Depart;
      Depart(c, reason);
    }

    /** The socket dropped: its seat is held, under a fresh timer that replaces any earlier one. */
    method HoldSeat(c: SocketId, timer: TimerId)
      requires Valid() && timer !in timers
      modifies this
      ensures Valid() && Abs() == Step(old(Abs()), DropSocket(c))
    {
      hide Valid, RoomsOk, SeatsOk, TimersOk, SlugsOk, Abs;
      if !Known(c) { return; }
      var m := records[c];
      TakeSeat(c, m, timer);
      DetachPeer(c);
    }

    predicate Known(c: SocketId)
      reads this
      ensures Known(c) <==> c in Abs().members
      ensures Known(c) ==> c in records && records[c] == Abs().members[c]
    {
      c in records
    }

    /** Replaces the seat and its timer: an earlier timer for the same seat is disarmed first. */
    method StoreSeat(key: Key, seat: HeldSeat)
      requires Valid() && key == Key(seat.room, seat.user) && seat.timer !in timers && key.room in rooms
      modifies this`heldSeats, this`heldSeatsByRoom, this`timers
      ensures Valid() && heldSeats == old(heldSeats)[key := seat]
    {
      SeatTaken(heldSeats, heldSeatsByRoom, timers, key, seat);
      ResidueSeated(rooms, roomOwners, roomLocks, kickedUsers, roomIdToSlugs, heldSeatsByRoom, key);
      hide RoomsOk, SeatsOk, SlugsOk, TimersOk, NoResidue, Indexed;
      if key in heldSeats {
        timers := timers - {heldSeats[key].timer};
      } else {
        assert timers - {} == timers;
      }
      timers := timers[seat.timer := key];
      heldSeats := heldSeats[key := seat];
      IndexHeldSeat(key.room, key);
      assert SeatsOk(heldSeats, heldSeatsByRoom);
      assert TimersOk(heldSeats, timers);
    }

    method HoldKey(key: Key, seat: HeldSeat)
      requires Valid() && key == Key(seat.room, seat.user) && seat.timer !in timers && key.room in rooms
      modifies this`heldSeats, this`heldSeatsByRoom, this`timers
      ensures Valid() && Abs() == old(Abs()).(seats := old(Abs()).seats + {key})
    {
      hide Valid, KickedIn, LockedIn;
      StoreSeat(key, seat);
      assert heldSeats.Keys == old(heldSeats).Keys + {key};
    }

    lemma RecordTracked(c: SocketId)
      requires Valid() && c in records
      ensures records[c].room in rooms
    {
    }

    method TakeSeat(c: SocketId, m: Record, timer: TimerId)
      requires Valid() && timer !in timers && c in records && records[c] == m
      modifies this`heldSeats, this`heldSeatsByRoom, this`timers, this`silent
      ensures Valid()
      ensures var w := old(Abs()); var k := Key(m.room, m.user);
              Abs() == w.(seats := w.seats + {k}, silent := if k in w.seats then w.silent + multiset{k} else w.silent)
    {
      hide RoomsOk, SeatsOk, TimersOk, SlugsOk, NoResidue, KickedIn, LockedIn;
      RecordTracked(c);
      var key := Key(m.room, m.user);
      ghost var replaced := key in Abs().seats;
      hide Valid, Abs;
      HoldKey(key, HeldSeat(m.room, c, m.user, timer));
      if replaced { RecordSilent({key}); }
    }

    /** An armed grace timer fires: the deferred departure of its seat runs. */
    method TimerFires(t: TimerId)
      requires Valid() && t in timers
      modifies this
      ensures Valid() && Abs() == Expire(old(Abs()), old(timers)[t])
    {
      TimerHasSeat(t);
      hide Valid, Abs, Expire;
      ExpireHeldSeat(timers[t]);
    }

    lemma TimerHasSeat(t: TimerId)
      requires Valid() && t in timers
      ensures timers[t] in heldSeats && heldSeats[timers[t]].timer == t
    {
    }

    method ExpireHeldSeat(key: Key)
      requires Valid()
      modifies this
      ensures Valid() && Abs() == Expire(old(Abs()), key)
    {
      if key !in heldSeats { return; }
      ghost var w := Abs();
      SeatRoomTracked(key);
      var restored := RestoreSeat(key);
      ghost var w1 := Abs();
      IndexesFaithful(key.room);
      hide Valid, Send, Cleanup, MembersOf, SlugOf;
      if key.room !in rooms { return; }
      Announce(key.room, PeerLeft(key.user), ParticipantLeft(key.room, FindRoomSlug(key.room), key.user, Disconnected));
      CleanupRoomIfEmpty(key.room);
    }

    /** The guard for a room that ended while the seat was held is never taken. */
    lemma SeatRoomTracked(key: Key)
      requires Valid() && key in heldSeats
      ensures key.room in rooms
    {
    }

    // ----- Host controls -----

    /** First member of the room, in join order, with the given user id. */
    method FindPeer(r: RoomId, user: UserId) returns (found: Option<SocketId>)
      requires Valid()
      ensures found.Some? ==> found.value in Abs().members && Abs().members[found.value].room == r && Abs().members[found.value].user == user
      ensures found.None? ==> forall c | c in Abs().members && Abs().members[c].room == r :: Abs().members[c].user != user
    {
      IndexesFaithful(r);
      var peers := ListPeerSockets(r);
      hide RoomsOk, SeatsOk, SlugsOk, TimersOk, NoResidue;
      found := None;
      for i := 0 to |peers|
        invariant forall j | 0 <= j < i :: peers[j] in records && records[peers[j]].user != user
      {
        assert peers[i] in MembersOf(Abs(), r);
        if records[peers[i]].user == user { return Some(peers[i]); }
      }
      forall c | c in Abs().members && Abs().members[c].room == r ensures Abs().members[c].user != user {
        assert c in MembersOf(Abs(), r);
      }
    }

    method Kick(requester: SocketId, user: UserId) returns (ack: Ack, ghost target: Option<SocketId>)
      requires Valid()
      modifies this
      ensures Finds(old(Abs()), requester, user, target)
      ensures Valid() && Abs() == Step(old(Abs()), KickUser(requester, user, target))
      ensures ack == KickAck(old(Abs()), requester, target)
    {
      target := None;
      if !Known(requester) { return NotInRoom, None; }
      var r := records[requester].room;
      var found := FindPeer(r, user);
      target := found;
      if !records[requester].canKick { return MissingCapability, found; }
      if found.None? || found.value == requester { return TargetNotFound, found; }
      var t := found.value;
      MarkKicked(r, records[t].user, t);
      hide Valid, Abs, M.Depart;
      Depart(t, WasKicked);
      ack := Done;
    }

    method MarkKicked(r: RoomId, user: UserId, t: SocketId)
      requires Valid() && r in rooms
      modifies this`kickedUsers, this`inbox
      ensures Valid()
      ensures var w := old(Abs()); Abs() == w.(kicked := w.kicked + {Key(r, user)}, inbox := Send(w.inbox, {t}, KickedOut(r)))
    {
      KickRecorded(kickedUsers, r, user);
      hide RoomsOk, SeatsOk, SlugsOk, TimersOk, KickedIn, LockedIn, Send;
      var kicked := if r in kickedUsers then kickedUsers[r] else {};
      kickedUsers := kickedUsers[r := kicked + {user}];
      inbox := Send(inbox, {t}, KickedOut(r));
      assert NoResidue(rooms, roomOwners, roomLocks, kickedUsers, roomIdToSlugs, heldSeatsByRoom);
    }

    method LockRoom(requester: SocketId, on: bool) returns (ack: Ack)
      requires Valid()
      modifies this
      ensures Valid() && Abs() == Step(old(Abs()), SetLock(requester, on))
      ensures ack == LockAck(old(Abs()), requester)
    {
      if !Known(requester) { return NotInRoom; }
      if !records[requester].canLock { return MissingCapability; }
      ack := Done;
      var r := records[requester].room;
      assert r in rooms;
      assert (r in roomLocks && roomLocks[r]) <==> r in LockedIn(roomLocks);
      if (r in roomLocks && roomLocks[r]) == on { return; }
      StoreLock(r, on);
      hide Send;
      assert MembersOf(Abs(), r) - {} == MembersOf(Abs(), r) == MembersOf(old(Abs()), r);
      hide Valid, Abs, MembersOf;
      TellRoom(r, LockChanged(on), None);
    }

    method StoreLock(r: RoomId, on: bool)
      requires Valid() && r in rooms
      modifies this`roomLocks
      ensures Valid()
      ensures var w := old(Abs()); Abs() == w.(locked := if on then w.locked + {r} else w.locked - {r})
    {
      hide RoomsOk, SeatsOk, SlugsOk, TimersOk, KickedIn;
      roomLocks := roomLocks[r := on];
      assert LockedIn(roomLocks) == if on then LockedIn(old(roomLocks)) + {r} else LockedIn(old(roomLocks)) - {r};
      assert NoResidue(rooms, roomOwners, roomLocks, kickedUsers, roomIdToSlugs, heldSeatsByRoom);
    }

    // ----- End of the room -----

    method ForgetSeats(r: RoomId)
      requires Valid()
      modifies this`heldSeats, this`heldSeatsByRoom, this`timers
      ensures Valid() && heldSeats == old(heldSeats) - SeatsOf(old(heldSeats), r)
    {
      hide RoomsOk, SeatsOk, SlugsOk, TimersOk, SeatsOf, TimersWithout;
      RoomSeatsDropped(heldSeats, heldSeatsByRoom, timers, r);
      SeatsOfAreSeats(r);
      DropSeats(if r in heldSeatsByRoom then heldSeatsByRoom[r] else {});
      heldSeatsByRoom := heldSeatsByRoom - {r};
      assert SeatsOk(heldSeats, heldSeatsByRoom);
      assert TimersOk(heldSeats, timers);
    }

    method ForgetHostState(r: RoomId)
      requires Valid()
      modifies this`roomLocks, this`kickedUsers
      ensures Valid() && roomLocks == old(roomLocks) - {r} && kickedUsers == old(kickedUsers) - {r}
    {
      hide RoomsOk, SeatsOk, SlugsOk, TimersOk;
      roomLocks := roomLocks - {r};
      kickedUsers := kickedUsers - {r};
      assert NoResidue(rooms, roomOwners, roomLocks, kickedUsers, roomIdToSlugs, heldSeatsByRoom);
    }

    lemma SeatsOfAreSeats(r: RoomId)
      ensures SeatsOf(heldSeats, r) <= heldSeats.Keys
      ensures SeatsOf(heldSeats, r) == set k | k in heldSeats.Keys && k.room == r
      ensures (heldSeats - SeatsOf(heldSeats, r)).Keys == set k | k in heldSeats.Keys && k.room != r
    {
    }

    method ForgetSeatsAndHostState(r: RoomId)
      requires Valid()
      modifies this`roomLocks, this`heldSeats, this`heldSeatsByRoom, this`timers, this`kickedUsers
      ensures Valid()
      ensures var w := old(Abs());
              Abs() == w.(locked := w.locked - {r}, kicked := (set k | k in w.kicked && k.room != r),
                          seats := (set k | k in w.seats && k.room != r))
    {
      hide Valid, KickedIn, LockedIn, SeatsOf;
      SeatsOfAreSeats(r);
      KicksForgotten(kickedUsers, r);
      LockForgotten(roomLocks, r);
      ForgetHostState(r);
      ForgetSeats(r);
    }

    /** Grace seats lapse at once, kicks and the lock are forgotten; nobody is told. */
    method LapseSeats(r: RoomId)
      requires Valid()
      modifies this`roomLocks, this`heldSeats, this`heldSeatsByRoom, this`timers, this`kickedUsers, this`silent
      ensures Valid()
      ensures var w := old(Abs());
              Abs() == w.(locked := w.locked - {r}, kicked := (set k | k in w.kicked && k.room != r),
                          seats := (set k | k in w.seats && k.room != r),
                          silent := w.silent + multiset(set k | k in w.seats && k.room == r))
    {
      hide Valid, Abs;
      ghost var lapsed := set k | k in Abs().seats && k.room == r;
      ForgetSeatsAndHostState(r);
      RecordSilent(lapsed);
    }

    ghost method RecordSilent(lapsed: set<Key>)
      requires Valid()
      modifies this`silent
      ensures Valid() && Abs() == old(Abs()).(silent := old(Abs()).silent + multiset(lapsed))
    {
      hide RoomsOk, SeatsOk, SlugsOk, TimersOk, NoResidue, KickedIn, LockedIn;
      silent := silent + multiset(lapsed);
    }

    /** Each seat of the room loses its timer and its entry. */
    method DropSeats(keys: set<Key>)
      requires TimersOk(heldSeats, timers) && keys <= heldSeats.Keys
      modifies this`heldSeats, this`timers
      ensures heldSeats == old(heldSeats) - keys && timers == TimersWithout(old(timers), keys)
    {
      assert TimersWithout(timers, {}) == timers;
      hide TimersOk, TimersWithout;
      var rest := keys;
      while rest != {}
        invariant rest <= keys
        invariant heldSeats == old(heldSeats) - (keys - rest)
        invariant timers == TimersWithout(old(timers), keys - rest)
      {
        var k :| k in rest;
        TimerDropped(old(heldSeats), old(timers), keys - rest, k);
        assert keys - (rest - {k}) == (keys - rest) + {k};
        timers := timers - {heldSeats[k].timer};
        heldSeats := heldSeats - {k};
        rest := rest - {k};
      }
      assert keys - {} == keys;
    }

    /** Tears the members down one by one through the departure funnel. */
    method TearDown(peers: seq<SocketId>)
      requires Valid()
      modifies this
      ensures Valid() && Abs() == DepartAll(old(Abs()), peers, RoomEnd)
    {
      hide Valid, Abs, M.Depart;
      for i := 0 to |peers|
        invariant Valid() && Abs() == DepartAll(old(Abs()), peers[..i], RoomEnd)
      {
        assert peers[..i + 1][..i] == peers[..i];
        Depart(peers[i], RoomEnd);
      }
      assert peers[..|peers|] == peers;
    }

    /** Ends the room's lifetime; `order` is the order in which the members are torn down. */
    method EndRoom(r: RoomId) returns (ghost order: seq<SocketId>)
      requires Valid()
      modifies this
      ensures Enumerates(order, MembersOf(old(Abs()), r))
      ensures Valid() && Abs() == M.EndRoom(old(Abs()), r, order)
      ensures RoomEndedIn(old(Abs()), Abs(), r)
      ensures Abs().hooks == old(Abs()).hooks + Farewells(old(Abs()), r, order) + [RoomEnded(r, SlugOf(old(Abs()), r))]
    {
      PeersEnumerate(r);
      LapseKeepsMembers(Abs(), r);
      EndExactly(Abs(), r, ListPeerSockets(r));
      hide RoomEndedIn, Farewells, RoomGone, Valid, Abs, MembersOf, SlugOf, Send, DepartAll, Enumerates;
      var slug := FindRoomSlug(r);
      var peers := ListPeerSockets(r);
      order := peers;
      LapseSeats(r);
      if |peers| > 0 {
        TellRoom(r, RoomClosed(r), None);
        TearDown(peers);
      }
      EmitRoomEnded(r, slug);
    }

    lemma PeersEnumerate(r: RoomId)
      requires Valid()
      ensures Enumerates(ListPeerSockets(r), MembersOf(Abs(), r)) && FindRoomSlug(r) == SlugOf(Abs(), r)
    {
      IndexesFaithful(r);
      hide SeatsOk, SlugsOk, TimersOk, NoResidue;
    }

    method EmitRoomEnded(r: RoomId, slug: Option<Slug>)
      requires Valid()
      modifies this`hooks
      ensures Valid() && Abs() == old(Abs()).(hooks := old(Abs()).hooks + [RoomEnded(r, slug)])
    {
      hide RoomsOk, SeatsOk, SlugsOk, TimersOk, NoResidue, KickedIn, LockedIn;
      hooks := hooks + [RoomEnded(r, slug)];
    }

    // ----- Queries -----

    /** The room behind a slug has a member with this user id. */
    method HasPeerInSlug(slug: Slug, user: UserId) returns (found: bool)
      requires Valid()
      ensures found <==> slug in Abs().slugIndex && user in MemberUsers(Abs(), Abs().slugIndex[slug])
    {
      if slug !in slugToRoomId { return false; }
      var peer := FindPeer(slugToRoomId[slug], user);
      hide Valid;
      found := peer.Some?;
    }

    /** Member socket of the owner of the room behind a slug. */
    method OwnerSocketId(slug: Slug) returns (owner: Option<SocketId>)
      requires Valid()
      ensures owner.Some? ==>
                var w := Abs();
                && slug in w.slugIndex && w.slugIndex[slug] in w.owners && owner.value in w.members
                && w.members[owner.value].room == w.slugIndex[slug]
                && w.members[owner.value].user == w.owners[w.slugIndex[slug]]
      ensures owner.None? ==>
                var w := Abs();
                slug in w.slugIndex && w.slugIndex[slug] in w.owners ==>
                  forall c | c in w.members && w.members[c].room == w.slugIndex[slug] ::
                    w.members[c].user != w.owners[w.slugIndex[slug]]
    {
      owner := None;
      if slug in slugToRoomId && slugToRoomId[slug] in roomOwners {
        owner := FindPeer(slugToRoomId[slug], roomOwners[slugToRoomId[slug]]);
      }
    }
  }
}
