/**
 Coherence of the presence maps with their reverse indexes, as predicates on the map values, and
 what each index operation does to it.
 */
module PresenceIndexes {
  import opened Common
  import opened PresenceModel

  type TimerId = nat

  datatype HeldSeat = HeldSeat(room: RoomId, socket: SocketId, user: UserId, timer: TimerId)

  /** Each record's socket is in its room's list, once, and the lists hold nothing else. */
  ghost predicate RoomsOk(records: map<SocketId, Record>, rooms: map<RoomId, seq<SocketId>>) {
    && (forall c | c in records :: records[c].room in rooms && c in rooms[records[c].room])
    && (forall r | r in rooms :: Distinct(rooms[r]))
    && (forall r, c | r in rooms && c in rooms[r] :: c in records && records[c].room == r)
  }

  /** Seats and seats-by-room are exact inverses, without empty buckets. */
  ghost predicate SeatsOk(seats: map<Key, HeldSeat>, byRoom: map<RoomId, set<Key>>) {
    && (forall k | k in seats :: k == Key(seats[k].room, seats[k].user))
    && (forall k | k in seats :: k.room in byRoom && k in byRoom[k.room])
    && (forall r | r in byRoom :: byRoom[r] != {})
    && (forall r, k | r in byRoom && k in byRoom[r] :: k in seats && k.room == r)
  }

  /** Exactly one armed timer per held seat, and no other. */
  ghost predicate TimersOk(seats: map<Key, HeldSeat>, timers: map<TimerId, Key>) {
    && (forall t | t in timers :: timers[t] in seats && seats[timers[t]].timer == t)
    && (forall k | k in seats :: seats[k].timer in timers && timers[seats[k].timer] == k)
  }

  /** Every indexed slug is one of the slugs of the room it points to. */
  ghost predicate SlugsOk(index: map<Slug, RoomId>, slugs: map<RoomId, seq<Slug>>) {
    && (forall r | r in slugs :: slugs[r] != [])
    && (forall s | s in index :: index[s] in slugs && s in slugs[index[s]])
  }

  /** Nothing is kept for a room that is not tracked. */
  ghost predicate NoResidue(rooms: map<RoomId, seq<SocketId>>, owners: map<RoomId, UserId>, locks: map<RoomId, bool>,
                       kicked: map<RoomId, set<UserId>>, slugs: map<RoomId, seq<Slug>>, seats: map<RoomId, set<Key>>)
  {
    owners.Keys <= rooms.Keys && locks.Keys <= rooms.Keys && kicked.Keys <= rooms.Keys && slugs.Keys <= rooms.Keys && seats.Keys <= rooms.Keys
  }

  lemma ResidueCleared(rooms: map<RoomId, seq<SocketId>>, owners: map<RoomId, UserId>, locks: map<RoomId, bool>,
                       kicked: map<RoomId, set<UserId>>, slugs: map<RoomId, seq<Slug>>, seats: map<RoomId, set<Key>>, r: RoomId)
    requires NoResidue(rooms, owners, locks, kicked, slugs, seats) && r !in seats
    ensures NoResidue(rooms - {r}, owners - {r}, locks - {r}, kicked - {r}, slugs - {r}, seats)
  {
  }

  lemma ResidueSeated(rooms: map<RoomId, seq<SocketId>>, owners: map<RoomId, UserId>, locks: map<RoomId, bool>,
                      kicked: map<RoomId, set<UserId>>, slugs: map<RoomId, seq<Slug>>, seats: map<RoomId, set<Key>>, k: Key)
    requires NoResidue(rooms, owners, locks, kicked, slugs, seats) && k.room in rooms
    ensures NoResidue(rooms, owners, locks, kicked, slugs, Indexed(seats, k.room, k))
  {
  }

  // ----- Rooms -----

  function Peers(rooms: map<RoomId, seq<SocketId>>, r: RoomId): seq<SocketId> {
    if r in rooms then rooms[r] else []
  }

  lemma RoomsDetach(records: map<SocketId, Record>, rooms: map<RoomId, seq<SocketId>>, c: SocketId)
    requires RoomsOk(records, rooms) && c in records
    ensures RoomsOk(records - {c}, rooms[records[c].room := Without(rooms[records[c].room], c)])
  {
    var r := records[c].room;
    WithoutElements(rooms[r], c);
    WithoutDistinct(rooms[r], c);
  }

  lemma RoomsEnter(records: map<SocketId, Record>, rooms: map<RoomId, seq<SocketId>>, c: SocketId, rec: Record)
    requires RoomsOk(records, rooms) && c !in records
    ensures RoomsOk(records[c := rec], rooms[rec.room := Peers(rooms, rec.room) + [c]])
  {
    var peers := Peers(rooms, rec.room);
    assert c !in peers;
    assert Distinct(peers + [c]);
  }

  /**
   What a join does to the room index when its socket may be a member already: the index stays exact if
   and only if the socket was in no other room.
   */
  lemma RejoinExactly(records: map<SocketId, Record>, rooms: map<RoomId, seq<SocketId>>, c: SocketId, rec: Record)
    requires RoomsOk(records, rooms)
    ensures var peers := Peers(rooms, rec.room);
            RoomsOk(records[c := rec], rooms[rec.room := if c in peers then peers else peers + [c]])
            <==> (c in records ==> records[c].room == rec.room)
  {
    var peers := Peers(rooms, rec.room);
    var rooms' := rooms[rec.room := if c in peers then peers else peers + [c]];
    if c in records && records[c].room != rec.room {
      var r, records' := records[c].room, records[c := rec];
      assert r in rooms' && c in rooms'[r] && records'[c].room != r;
      assert !RoomsOk(records', rooms');
    } else {
      assert c in records <==> c in peers;
      if c !in records { RoomsEnter(records, rooms, c, rec); }
    }
  }

  lemma RoomsClose(records: map<SocketId, Record>, rooms: map<RoomId, seq<SocketId>>, r: RoomId)
    requires RoomsOk(records, rooms) && Peers(rooms, r) == []
    ensures RoomsOk(records, rooms - {r})
  {
  }

  // ----- Slugs -----

  function SlugSet(slugs: map<RoomId, seq<Slug>>, r: RoomId): set<Slug> {
    if r in slugs then set s | s in slugs[r] else {}
  }

  lemma SlugsForgotten(index: map<Slug, RoomId>, slugs: map<RoomId, seq<Slug>>, r: RoomId)
    requires SlugsOk(index, slugs)
    ensures SlugsOk(index - SlugSet(slugs, r), slugs - {r})
  {
  }

  lemma SlugAdded(index: map<Slug, RoomId>, slugs: map<RoomId, seq<Slug>>, r: RoomId, s: Slug)
    requires SlugsOk(index, slugs)
    ensures SlugsOk(index[s := r], slugs[r := AddSlug(if r in slugs then slugs[r] else [], s)])
  {
  }

  // ----- Locks and kicks -----

  ghost function LockedIn(locks: map<RoomId, bool>): set<RoomId> {
    set r | r in locks && locks[r]
  }

  ghost function KickedIn(kicked: map<RoomId, set<UserId>>): set<Key> {
    set r, u | r in kicked && u in kicked[r] :: Key(r, u)
  }

  lemma KicksForgotten(kicked: map<RoomId, set<UserId>>, r: RoomId)
    ensures KickedIn(kicked - {r}) == (set k | k in KickedIn(kicked) && k.room != r)
  {
  }

  lemma LockForgotten(locks: map<RoomId, bool>, r: RoomId)
    ensures LockedIn(locks - {r}) == LockedIn(locks) - {r}
  {
  }

  lemma NoEmptyBucket(seats: map<Key, HeldSeat>, byRoom: map<RoomId, set<Key>>)
    requires SeatsOk(seats, byRoom)
    ensures forall r | r in byRoom :: byRoom[r] != {}
  {
  }

  lemma KickRecorded(kicked: map<RoomId, set<UserId>>, r: RoomId, u: UserId)
    ensures KickedIn(kicked[r := (if r in kicked then kicked[r] else {}) + {u}]) == KickedIn(kicked) + {Key(r, u)}
  {
    var after := kicked[r := (if r in kicked then kicked[r] else {}) + {u}];
    forall k | k in KickedIn(kicked) + {Key(r, u)} ensures k in KickedIn(after) {
      assert k.room in after && k.user in after[k.room];
    }
  }

  // ----- Seats -----

  function Indexed(byRoom: map<RoomId, set<Key>>, r: RoomId, k: Key): map<RoomId, set<Key>> {
    byRoom[r := (if r in byRoom then byRoom[r] else {}) + {k}]
  }

  function Unindexed(byRoom: map<RoomId, set<Key>>, r: RoomId, k: Key): map<RoomId, set<Key>> {
    if r !in byRoom then byRoom
    else if byRoom[r] - {k} == {} then byRoom - {r}
    else byRoom[r := byRoom[r] - {k}]
  }

  lemma SeatReleased(seats: map<Key, HeldSeat>, byRoom: map<RoomId, set<Key>>, timers: map<TimerId, Key>, k: Key)
    requires SeatsOk(seats, byRoom) && TimersOk(seats, timers) && k in seats
    ensures SeatsOk(seats - {k}, Unindexed(byRoom, k.room, k))
    ensures TimersOk(seats - {k}, timers - {seats[k].timer})
  {
  }

  lemma SeatTaken(seats: map<Key, HeldSeat>, byRoom: map<RoomId, set<Key>>, timers: map<TimerId, Key>, k: Key, seat: HeldSeat)
    requires SeatsOk(seats, byRoom) && TimersOk(seats, timers)
    requires k == Key(seat.room, seat.user) && seat.timer !in timers
    ensures SeatsOk(seats[k := seat], Indexed(byRoom, k.room, k))
    ensures TimersOk(seats[k := seat], (timers - (if k in seats then {seats[k].timer} else {}))[seat.timer := k])
  {
    assert TimersOk(seats[k := seat], (timers - (if k in seats then {seats[k].timer} else {}))[seat.timer := k]) by {
      hide SeatsOk;
    }
    assert SeatsOk(seats[k := seat], Indexed(byRoom, k.room, k)) by {
      hide TimersOk;
    }
  }

  function SeatsOf(seats: map<Key, HeldSeat>, r: RoomId): set<Key> {
    set k | k in seats && k.room == r
  }

  function TimersWithout(timers: map<TimerId, Key>, gone: set<Key>): map<TimerId, Key> {
    map t | t in timers && timers[t] !in gone :: timers[t]
  }

  lemma TimerDropped(seats: map<Key, HeldSeat>, timers: map<TimerId, Key>, gone: set<Key>, k: Key)
    requires TimersOk(seats, timers) && k in seats && k !in gone
    ensures TimersWithout(timers, gone + {k}) == TimersWithout(timers, gone) - {seats[k].timer}
  {
  }

  lemma RoomSeatsDropped(seats: map<Key, HeldSeat>, byRoom: map<RoomId, set<Key>>, timers: map<TimerId, Key>, r: RoomId)
    requires SeatsOk(seats, byRoom) && TimersOk(seats, timers)
    ensures SeatsOk(seats - SeatsOf(seats, r), byRoom - {r})
    ensures TimersOk(seats - SeatsOf(seats, r), TimersWithout(timers, SeatsOf(seats, r)))
    ensures (if r in byRoom then byRoom[r] else {}) == SeatsOf(seats, r)
    ensures (seats - SeatsOf(seats, r)).Keys == set k | k in seats.Keys && k.room != r
  {
  }

  // ----- Broadcast -----

  ghost function Recipients(peers: seq<SocketId>, exclude: Option<SocketId>): set<SocketId> {
    set c | c in peers && exclude != Some(c)
  }

  lemma SendToOneMore(inbox: map<SocketId, seq<Msg>>, to: set<SocketId>, c: SocketId, m: Msg)
    requires c !in to
    ensures Send(inbox, to + {c}, m) == Send(Send(inbox, to, m), {c}, m)
  {
    var one, two := Send(inbox, to + {c}, m), Send(Send(inbox, to, m), {c}, m);
    assert one.Keys == two.Keys;
    forall d | d in one.Keys ensures one[d] == two[d] {}
  }

  /** Sending the message to one more member of the list. */
  lemma SendOneMore(inbox: map<SocketId, seq<Msg>>, peers: seq<SocketId>, i: nat, exclude: Option<SocketId>, m: Msg)
    requires Distinct(peers) && i < |peers|
    ensures var sent := Send(inbox, Recipients(peers[..i], exclude), m);
            Send(inbox, Recipients(peers[..i + 1], exclude), m)
              == if exclude == Some(peers[i]) then sent else Send(sent, {peers[i]}, m)
  {
    hide Send;
    var c := peers[i];
    assert peers[..i + 1] == peers[..i] + [c];
    assert c !in peers[..i];
    if exclude == Some(c) {
      assert Recipients(peers[..i + 1], exclude) == Recipients(peers[..i], exclude);
    } else {
      SendToOneMore(inbox, Recipients(peers[..i], exclude), c, m);
      assert Recipients(peers[..i + 1], exclude) == Recipients(peers[..i], exclude) + {c};
    }
  }

  // ----- Admission, one field group at a time -----

  function Entered(w: World, c: SocketId, rec: Record): World {
    w.(seats := w.seats - {Key(rec.room, rec.user)}, members := w.members[c := rec], tracked := w.tracked + {rec.room},
       replaced := w.replaced + ReplacedBy(w, c))
  }

  function Filed(w: World, rec: Record, slug: Option<Slug>): World {
    w.(owners := if rec.ownsRoom then w.owners[rec.room := rec.user] else w.owners,
       slugs := if slug.Some? then w.slugs[rec.room := AddSlug(if rec.room in w.slugs then w.slugs[rec.room] else [], slug.value)] else w.slugs,
       slugIndex := if slug.Some? then w.slugIndex[slug.value := rec.room] else w.slugIndex)
  }

  function Greeted(w: World, c: SocketId, r: RoomId, held: set<UserId>): World {
    var others := MembersOf(w, r) - {c};
    w.(inbox := w.inbox[c := if others == {} then [] else [ExistingPeers(set o | o in others :: w.members[o].user)]],
       heldAtJoin := w.heldAtJoin[c := held])
  }

  function Hooked(w: World, firstPeer: bool, restored: bool, rec: Record, slug: Option<Slug>): World {
    w.(hooks := w.hooks + (if firstPeer then [RoomStarted(rec.room, slug)] else [])
                        + (if restored then [] else [ParticipantJoined(rec.room, slug, rec.user)]))
  }

  /** Taking the joiner's own seat away does not touch the members, and leaves the other seats. */
  lemma SeatlessFacts(w: World, k: Key)
    ensures var w0 := w.(seats := w.seats - {k});
            MembersOf(w0, k.room) == MembersOf(w, k.room)
            && SeatUsers(w0, k.room) == (set q | q in w.seats - {k} && q.room == k.room :: q.user)
  {
  }

  lemma AdmitByParts(w: World, c: SocketId, rec: Record, slug: Option<Slug>)
    requires Key(rec.room, rec.user) !in w.kicked
    ensures var restored := Key(rec.room, rec.user) in w.seats;
            var w0 := w.(seats := w.seats - {Key(rec.room, rec.user)});
            var w1 := Filed(Entered(w, c, rec), rec, slug);
            var w2 := if restored then w1 else w1.(inbox := Send(w1.inbox, MembersOf(w1, rec.room) - {c}, PeerJoined(rec.user)));
            var w3 := Greeted(w2, c, rec.room, SeatUsers(w0, rec.room));
            Hooked(w3, MembersOf(w0, rec.room) == {} && SeatUsers(w0, rec.room) == {}, restored, rec, slug) == Admit(w, c, rec, slug)
  {
    hide Send, AddSlug, MembersOf, SeatUsers;
    EnteredMembers(w, c, rec, slug);
    SeatlessFacts(w, Key(rec.room, rec.user));
    GreetedMembers(w, Filed(Entered(w, c, rec), rec, slug), rec, c);
  }

  lemma GreetedMembers(w: World, w1: World, rec: Record, c: SocketId)
    ensures MembersOf(w1.(inbox := Send(w1.inbox, MembersOf(w1, rec.room) - {c}, PeerJoined(rec.user))), rec.room) == MembersOf(w1, rec.room)
  {
    hide Send;
  }

  lemma EnteredMembers(w: World, c: SocketId, rec: Record, slug: Option<Slug>)
    ensures var w1 := Filed(Entered(w, c, rec), rec, slug); var others := MembersOf(w, rec.room) - {c};
            && MembersOf(w1, rec.room) - {c} == others
            && (set o | o in others :: w1.members[o].user) == (set o | o in others :: w.members[o].user)
  {
    hide AddSlug;
    var w1 := Filed(Entered(w, c, rec), rec, slug);
    assert w1.members == w.members[c := rec];
    hide Filed, Entered;
    var others := MembersOf(w, rec.room) - {c};
    forall o | o in others ensures w1.members[o] == w.members[o] {}
  }

  lemma LapseKeepsMembers(w: World, r: RoomId)
    ensures MembersOf(Lapse(w, r), r) - {} == MembersOf(w, r)
  {
    assert MembersOf(Lapse(w, r), r) == MembersOf(w, r);
  }
}
