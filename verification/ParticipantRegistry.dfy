/**
 The client's participant registry. Its key set is the roster of PresenceModel: replaying the
 messages of one session through the registry yields Roster of those messages.
 */
module ParticipantRegistry {
  import opened Common
  import opened PresenceModel

  type ProducerId = nat

  type External = nat
  type Metadata = nat

  /** What a lifecycle message says of a user; a missing or empty name says nothing. */
  datatype Profile = Profile(username: Option<string>, externalId: Option<External>, metadata: Option<Metadata>)

  const ANONYMOUS := Profile(None, None, None)

  /** `mediaConnected` is None until the first detach or reattach. */
  datatype Participant = Participant(
    username: string, externalId: Option<External>, metadata: Option<Metadata>, producers: set<ProducerId>, mediaConnected: Option<bool>)

  class Registry {
    var peers: map<UserId, Participant>

    constructor ()
      ensures peers == map[]
    {
      peers := map[];
    }

    /**
     A new user starts without media, under an empty name if none is given; a known user gets a given
     name and its media marked live, and keeps everything else.
     */
    method Upsert(user: UserId, input: Profile) returns (created: bool)
      modifies this
      ensures created <==> user !in old(peers)
      ensures peers.Keys == old(peers).Keys + {user}
      ensures forall u | u in old(peers) && u != user :: peers[u] == old(peers)[u]
      ensures created ==> peers[user] == Participant(input.username.GetOr(""), input.externalId, input.metadata, {}, None)
      ensures !created ==>
                var name := input.username.GetOr("");
                peers[user] == old(peers)[user].(mediaConnected := Some(true),
                                                 username := if name != "" then name else old(peers)[user].username)
    {
      if user !in peers {
        peers := peers[user := Participant(input.username.GetOr(""), input.externalId, input.metadata, {}, None)];
        return true;
      }
      var peer := peers[user];
      if input.username.GetOr("") != "" {
        peer := peer.(username := input.username.value);
      }
      peers := peers[user := peer.(mediaConnected := Some(true))];
      created := false;
    }

    method AttachProducer(user: UserId, producer: ProducerId)
      modifies this
      ensures peers.Keys == old(peers).Keys
      ensures user in peers ==> peers == old(peers)[user := old(peers)[user].(producers := old(peers)[user].producers + {producer},
                                                                              mediaConnected := Some(true))]
      ensures user !in peers ==> peers == old(peers)
    {
      if user in peers {
        peers := peers[user := peers[user].(producers := peers[user].producers + {producer}, mediaConnected := Some(true))];
      }
    }

    /** Reports a detach only when one happened, so nobody is notified twice in a row. */
    method MarkMediaDetached(user: UserId) returns (detached: bool)
      modifies this
      ensures detached <==> user in old(peers) && old(peers)[user].mediaConnected != Some(false)
      ensures peers.Keys == old(peers).Keys
      ensures user in peers ==> peers[user] == old(peers)[user].(mediaConnected := Some(false))
      ensures forall u | u in peers && u != user :: peers[u] == old(peers)[u]
    {
      if user !in peers || peers[user].mediaConnected == Some(false) { return false; }
      peers := peers[user := peers[user].(mediaConnected := Some(false))];
      detached := true;
    }

    method Remove(user: UserId) returns (removed: Option<Participant>)
      modifies this
      ensures peers == old(peers) - {user}
      ensures removed == if user in old(peers) then Some(old(peers)[user]) else None
    {
      removed := None;
      if user in peers {
        removed := Some(peers[user]);
        peers := peers - {user};
      } else {
        assert peers - {user} == peers;
      }
    }

    method Clear()
      modifies this
      ensures peers == map[]
    {
      peers := map[];
    }

    /** One server message, dispatched as the client facade does. */
    method Handle(m: Msg)
      modifies this
      ensures peers.Keys == Apply(old(peers).Keys, m)
      ensures forall u :: u in peers <==>
                if m.ExistingPeers? then u in m.users || u in old(peers)
                else if m.PeerJoined? then u == m.user || u in old(peers)
                else if m.PeerLeft? then u != m.user && u in old(peers)
                else m.LockChanged? && u in old(peers)
    {
      match m {
        case ExistingPeers(users) =>
          var rest := users;
          while rest != {}
            invariant rest <= users
            invariant peers.Keys == old(peers).Keys + (users - rest)
          {
            var user :| user in rest;
            var _ := Upsert(user, ANONYMOUS);
            rest := rest - {user};
          }
        case PeerJoined(user) => var _ := Upsert(user, ANONYMOUS);
        case PeerLeft(user) => var _ := Remove(user);
        case KickedOut(_) => Clear();
        case RoomClosed(_) => Clear();
        case LockChanged(_) =>
      }
    }

    /** A whole session: what the registry shows is what the messages say. */
    method Replay(ms: seq<Msg>)
      modifies this
      ensures peers.Keys == Roster(ms)
    {
      Clear();
      for i := 0 to |ms|
        invariant peers.Keys == Roster(ms[..i])
      {
        assert ms[..i + 1][..i] == ms[..i];
        Handle(ms[i]);
      }
      assert ms[..|ms|] == ms;
    }
  }
}
