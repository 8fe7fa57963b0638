/**
 Room presence as an abstract state machine: who is in which room, which grace seats are
 held, which rooms are locked, who was kicked, and everything the service has said so far
 (webhooks and socket messages). The maps and reverse indexes of the service are in
 RoomPresence.dfy, which refines this machine; the theorems about whole runs are in
 PresenceTheorems.dfy.

 `join` is two events because it awaits the credential lookup between the lock check
 (Begin) and the admission (Commit). Every other operation is one event.
 */
module PresenceModel {
  import opened Common

  type SocketId = nat
  type RoomId = nat
  type UserId = nat
  type Slug = nat
  type Ticket = nat

  /** A joined participant, as resolved from a verified credential. */
  datatype Record = Record(room: RoomId, user: UserId, canKick: bool, canLock: bool, ownsRoom: bool)

  /** A seat or a kick concerns one user of one room. */
  datatype Key = Key(room: RoomId, user: UserId)

  datatype Reason = Left | WasKicked | RoomEnd | Disconnected

  datatype Hook =
    | RoomStarted(room: RoomId, slug: Option<Slug>)
    | ParticipantJoined(room: RoomId, slug: Option<Slug>, user: UserId)
    | ParticipantLeft(room: RoomId, slug: Option<Slug>, user: UserId, reason: Reason)
    | RoomEnded(room: RoomId, slug: Option<Slug>)

  datatype Msg =
    | ExistingPeers(users: set<UserId>)
    | PeerJoined(user: UserId)
    | PeerLeft(user: UserId)
    | LockChanged(locked: bool)
    | KickedOut(room: RoomId)
    | RoomClosed(room: RoomId)

  /** A join suspended on its credential lookup. */
  datatype Request = Request(socket: SocketId, room: RoomId, slug: Option<Slug>)

  datatype World = World(
    members: map<SocketId, Record>,
    seats: set<Key>,
    tracked: set<RoomId>,
    locked: set<RoomId>,
    kicked: set<Key>,
    owners: map<RoomId, UserId>,
    slugs: map<RoomId, seq<Slug>>,
    slugIndex: map<Slug, RoomId>,
    pending: map<Ticket, Request>,
    hooks: seq<Hook>,
    inbox: map<SocketId, seq<Msg>>,          // what each socket was sent since its last join
    heldAtJoin: map<SocketId, set<UserId>>,  // history: seat holders when the socket joined
    silent: multiset<Key>,                   // history: seats that ended without participant.left
    replaced: multiset<Key>)                 // history: records overwritten by a repeated join of their socket

  const EMPTY := World(map[], {}, {}, {}, {}, map[], map[], map[], map[], [], map[], map[], multiset{}, multiset{})

  // ----- Observations -----

  function MembersOf(w: World, r: RoomId): set<SocketId> {
    set c | c in w.members && w.members[c].room == r
  }

  function MemberUsers(w: World, r: RoomId): set<UserId> {
    set c | c in w.members && w.members[c].room == r :: w.members[c].user
  }

  function SeatUsers(w: World, r: RoomId): set<UserId> {
    set k | k in w.seats && k.room == r :: k.user
  }

  /** Users the room counts as present: members and grace-seat holders. */
  function Present(w: World, r: RoomId): set<UserId> {
    MemberUsers(w, r) + SeatUsers(w, r)
  }

  function Received(inbox: map<SocketId, seq<Msg>>, c: SocketId): seq<Msg> {
    if c in inbox then inbox[c] else []
  }

  function SlugOf(w: World, r: RoomId): Option<Slug> {
    if r in w.slugs && w.slugs[r] != [] then Some(w.slugs[r][0]) else None
  }

  // ----- Building blocks -----

  function Send(inbox: map<SocketId, seq<Msg>>, to: set<SocketId>, m: Msg): map<SocketId, seq<Msg>> {
    map c | c in inbox.Keys + to :: if c in to then Received(inbox, c) + [m] else inbox[c]
  }

  function AddSlug(slugs: seq<Slug>, s: Slug): seq<Slug> {
    if s in slugs then slugs else slugs + [s]
  }

  /** The room's lifetime ends once it has neither members nor grace seats. */
  function Cleanup(w: World, r: RoomId): World {
    if MembersOf(w, r) != {} || SeatUsers(w, r) != {} then w
    else w.(tracked := w.tracked - {r},
            owners := w.owners - {r},
            locked := w.locked - {r},
            kicked := (set k | k in w.kicked && k.room != r),
            slugIndex := w.slugIndex - (if r in w.slugs then set s | s in w.slugs[r] else {}),
            slugs := w.slugs - {r})
  }

  /** One departure: announcement, webhook, then the room-empty check. */
  function Depart(w: World, c: SocketId, reason: Reason): World {
    if c !in w.members then w
    else
      var m := w.members[c];
      var w1 := w.(members := w.members - {c});
      var w2 := w1.(inbox := Send(w.inbox, MembersOf(w1, m.room), PeerLeft(m.user)),
                    hooks := w.hooks + [ParticipantLeft(m.room, SlugOf(w, m.room), m.user, reason)]);
      Cleanup(w2, m.room)
  }

  function DepartAll(w: World, order: seq<SocketId>, reason: Reason): World
    decreases |order|
  {
    if order == [] then w
    else Depart(DepartAll(w, order[..|order| - 1], reason), order[|order| - 1], reason)
  }

  /** Seats of `r` end silently, and its lock and kicks with them. */
  function Lapse(w: World, r: RoomId): World {
    w.(locked := w.locked - {r},
       kicked := (set k | k in w.kicked && k.room != r),
       seats := (set k | k in w.seats && k.room != r),
       silent := w.silent + multiset(set k | k in w.seats && k.room == r))
  }

  /** The key of the record a join of `c` overwrites, if there is one. */
  function ReplacedBy(w: World, c: SocketId): multiset<Key> {
    if c in w.members then multiset{Key(w.members[c].room, w.members[c].user)} else multiset{}
  }

  // ----- Operations -----

  /** Admission after the credential resolved: kick check, seat restore, announcements, webhooks. */
  function Admit(w: World, c: SocketId, rec: Record, slug: Option<Slug>): World {
    var r := rec.room;
    var k := Key(r, rec.user);
    if k in w.kicked then w
    else
      var restored := k in w.seats;
      var seats := w.seats - {k};
      var others := MembersOf(w, r) - {c};
      var held := set q | q in seats && q.room == r :: q.user;
      var told := if restored then w.inbox else Send(w.inbox, others, PeerJoined(rec.user));
      World(
        w.members[c := rec],
        seats,
        w.tracked + {r},
        w.locked,
        w.kicked,
        if rec.ownsRoom then w.owners[r := rec.user] else w.owners,
        if slug.Some? then w.slugs[r := AddSlug(if r in w.slugs then w.slugs[r] else [], slug.value)] else w.slugs,
        if slug.Some? then w.slugIndex[slug.value := r] else w.slugIndex,
        w.pending,
        w.hooks
          + (if MembersOf(w, r) == {} && held == {} then [RoomStarted(r, slug)] else [])
          + (if restored then [] else [ParticipantJoined(r, slug, rec.user)]),
        told[c := if others == {} then [] else [ExistingPeers(set o | o in others :: w.members[o].user)]],
        w.heldAtJoin[c := held],
        w.silent,
        w.replaced + ReplacedBy(w, c))
  }

  /** A dropped socket keeps its seat for the grace window; the room is told nothing. */
  function Drop(w: World, c: SocketId): World {
    if c !in w.members then w
    else
      var k := Key(w.members[c].room, w.members[c].user);
      w.(members := w.members - {c},
         seats := w.seats + {k},
         silent := if k in w.seats then w.silent + multiset{k} else w.silent)
  }

  /** The grace window of a seat lapses: the deferred leave flow runs. */
  function Expire(w: World, k: Key): World {
    if k !in w.seats then w
    else
      var w1 := w.(seats := w.seats - {k});
      if k.room !in w.tracked then w1
      else
        var w2 := w1.(inbox := Send(w.inbox, MembersOf(w1, k.room), PeerLeft(k.user)),
                      hooks := w.hooks + [ParticipantLeft(k.room, SlugOf(w1, k.room), k.user, Disconnected)]);
        Cleanup(w2, k.room)
  }

  datatype Ack = Done | NotInRoom | MissingCapability | TargetNotFound

  /** `target` is the socket the user lookup found in the requester's room, if any. */
  function KickAck(w: World, requester: SocketId, target: Option<SocketId>): Ack {
    if requester !in w.members then NotInRoom
    else if !w.members[requester].canKick then MissingCapability
    else if target.None? || target.value == requester then TargetNotFound
    else Done
  }

  function Kick(w: World, requester: SocketId, target: Option<SocketId>): World
    requires target.Some? ==> target.value in w.members
  {
    if !KickAck(w, requester, target).Done? then w
    else
      var t := w.members[target.value];
      var w1 := w.(kicked := w.kicked + {Key(w.members[requester].room, t.user)},
                   inbox := Send(w.inbox, {target.value}, KickedOut(w.members[requester].room)));
      Depart(w1, target.value, WasKicked)
  }

  function LockAck(w: World, requester: SocketId): Ack {
    if requester !in w.members then NotInRoom
    else if !w.members[requester].canLock then MissingCapability
    else Done
  }

  function Lock(w: World, requester: SocketId, on: bool): World {
    if !LockAck(w, requester).Done? then w
    else
      var r := w.members[requester].room;
      if (r in w.locked) == on then w
      else w.(locked := if on then w.locked + {r} else w.locked - {r},
              inbox := Send(w.inbox, MembersOf(w, r), LockChanged(on)))
  }

  /** `order` is the order in which the members are torn down. */
  function EndRoom(w: World, r: RoomId, order: seq<SocketId>): World {
    var w1 := Lapse(w, r);
    if order == [] then w1.(hooks := w1.hooks + [RoomEnded(r, SlugOf(w, r))])
    else
      var w2 := w1.(inbox := Send(w1.inbox, MembersOf(w, r), RoomClosed(r)));
      var w3 := DepartAll(w2, order, RoomEnd);
      w3.(hooks := w3.hooks + [RoomEnded(r, SlugOf(w, r))])
  }

  // ----- Events and runs -----

  datatype Event =
    | Begin(ticket: Ticket, request: Request)
    | Commit(ticket: Ticket, credential: Option<Record>)
    | Leave(socket: SocketId, reason: Reason)
    | DropSocket(socket: SocketId)
    | SeatExpires(key: Key)
    | KickUser(requester: SocketId, user: UserId, target: Option<SocketId>)
    | SetLock(requester: SocketId, on: bool)
    | End(room: RoomId, order: seq<SocketId>)

  ghost predicate Enumerates(order: seq<SocketId>, members: set<SocketId>) {
    Distinct(order) && forall c :: c in order <==> c in members
  }

  /** What the user lookup of a kick may return. */
  ghost predicate Finds(w: World, requester: SocketId, user: UserId, target: Option<SocketId>) {
    match target
    case Some(t) => t in w.members && w.members[t].user == user
                    && (requester in w.members ==> w.members[t].room == w.members[requester].room)
    case None => requester in w.members ==>
                   forall c | c in w.members && w.members[c].room == w.members[requester].room ::
                     w.members[c].user != user
  }

  /**
   What the environment guarantees: a socket that is a member joins no other room, a credential
   is for the room the join named, lookups and iterations see the current members. Nothing is
   assumed about who calls what, when.
   */
  ghost predicate Possible(w: World, e: Event) {
    match e
    case Begin(ticket, request) => ticket !in w.pending
    case Commit(ticket, cred) =>
      && ticket in w.pending
      && (cred.Some? ==> cred.value.room == w.pending[ticket].room)
      && (w.pending[ticket].socket in w.members ==> w.members[w.pending[ticket].socket].room == w.pending[ticket].room)
    case KickUser(requester, user, target) => Finds(w, requester, user, target)
    case End(room, order) => Enumerates(order, MembersOf(w, room))
    case _ => true
  }

  function Step(w: World, e: Event): World
    requires Possible(w, e)
  {
    match e
    case Begin(ticket, request) =>
      if request.room in w.locked then w else w.(pending := w.pending[ticket := request])
    case Commit(ticket, cred) =>
      var q := w.pending[ticket];
      var w1 := w.(pending := w.pending - {ticket});
      if cred.None? then w1 else Admit(w1, q.socket, cred.value, q.slug)
    case Leave(socket, reason) => Depart(w, socket, reason)
    case DropSocket(socket) => Drop(w, socket)
    case SeatExpires(key) => Expire(w, key)
    case KickUser(requester, user, target) => Kick(w, requester, target)
    case SetLock(requester, on) => Lock(w, requester, on)
    case End(room, order) => EndRoom(w, room, order)
  }

  ghost predicate PossibleRun(w: World, es: seq<Event>)
    decreases |es|
  {
    es == [] || (Possible(w, es[0]) && PossibleRun(Step(w, es[0]), es[1..]))
  }

  ghost function Run(w: World, es: seq<Event>): World
    requires PossibleRun(w, es)
    decreases |es|
  {
    if es == [] then w else Run(Step(w, es[0]), es[1..])
  }

  // ----- The client's side of the conversation -----

  /** What a client's participant registry does with one message. */
  function Apply(roster: set<UserId>, m: Msg): set<UserId> {
    match m
    case ExistingPeers(users) => roster + users
    case PeerJoined(user) => roster + {user}
    case PeerLeft(user) => roster - {user}
    case KickedOut(_) => {}
    case RoomClosed(_) => {}
    case LockChanged(_) => roster
  }

  function Roster(ms: seq<Msg>): set<UserId> {
    if ms == [] then {} else Apply(Roster(ms[..|ms| - 1]), ms[|ms| - 1])
  }
}
