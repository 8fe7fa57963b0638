/** The client session's reconnect recovery: rejoin budget, one token refresh per rejoin, teardown. */
module SessionRecovery {
  import opened Common
  import opened RateBudget

  const REJOIN_MAX_PER_WINDOW: nat := 5
  const REJOIN_WINDOW_MS: Millis := 30000

  /** `room` is the token's `sub` claim, if the token decodes and has one. */
  datatype Token = Token(id: nat, room: Option<nat>)

  datatype Payload = Payload(room: nat, token: Option<Token>)

  /** The join as sent: the token's room, when it names one, overrides the caller's. */
  function Routed(p: Payload): (q: Payload)
    ensures q.token == p.token && (forall t, r | p.token == Some(Token(t, Some(r))) :: q.room == r)
    ensures (forall t, r :: p.token != Some(Token(t, Some(r)))) ==> q.room == p.room
  {
    if p.token.Some? && p.token.value.room.Some? then p.(room := p.token.value.room.value) else p
  }

  datatype JoinError = Kicked | TokenExpired | Other

  /** What the session asks of its host, in order. */
  datatype Effect = EmitJoin(payload: Payload) | CallTokenProvider | FailRecovery | ReportKicked | ReportJoinError | ReportConnected

  class SfuSession {
    var sessionEstablished: bool
    var lastJoinPayload: Option<Payload>
    var tokenRefreshAttempted: bool
    var rejoinTimes: seq<Millis>
    var hasTokenProvider: bool
    // Since the session bookkeeping was last cleared.
    ghost var rejoins: seq<Millis>
    ghost var refreshes: nat
    ghost var clock: Millis

    /**
     The rejoin list is the in-window part of all rejoins of the session, no six of which fit in one
     window, and the token provider was called at most once before and once after each of them.
     */
    ghost predicate Valid()
      reads this
    {
      && Monotone(rejoins) && (rejoins != [] ==> rejoins[|rejoins| - 1] <= clock)
      && rejoinTimes == Recent(rejoins, clock, REJOIN_WINDOW_MS)
      && Spaced(rejoins, REJOIN_WINDOW_MS, REJOIN_MAX_PER_WINDOW)
      && refreshes + (if tokenRefreshAttempted then 0 else 1) <= |rejoins| + 1
    }

    constructor (now: Millis)
      ensures Valid() && !sessionEstablished && lastJoinPayload == None && rejoins == [] && refreshes == 0 && clock == now
    {
      sessionEstablished, lastJoinPayload, tokenRefreshAttempted, rejoinTimes, hasTokenProvider := false, None, false, [], false;
      rejoins, refreshes, clock := [], 0, now;
    }

    /** Without a socket the join throws and changes nothing; `provider` is None when no options are passed. */
    method JoinRoom(payload: Payload, provider: Option<bool>, hasSocket: bool) returns (effect: Option<Effect>)
      requires Valid()
      modifies `lastJoinPayload, `hasTokenProvider
      ensures Valid() && effect == if hasSocket then Some(EmitJoin(Routed(payload))) else None
      ensures hasSocket ==> lastJoinPayload == Some(payload) && hasTokenProvider == provider.GetOr(old(hasTokenProvider))
      ensures !hasSocket ==> unchanged(this)
    {
      if !hasSocket { return None; }
      hasTokenProvider := provider.GetOr(hasTokenProvider);
      lastJoinPayload := Some(payload);
      effect := Some(EmitJoin(Routed(payload)));
    }

    /** Takes one unit of the rejoin budget; refuses exactly when five rejoins lie within the last 30 seconds. */
    method AllowRejoin(now: Millis) returns (allowed: bool)
      requires Valid() && clock <= now
      modifies `rejoinTimes, `rejoins, `clock
      ensures clock == now && rejoins == old(rejoins) + (if allowed then [now] else [])
      ensures Monotone(rejoins) && (rejoins != [] ==> rejoins[|rejoins| - 1] <= clock)
      ensures rejoinTimes == Recent(rejoins, clock, REJOIN_WINDOW_MS) && Spaced(rejoins, 30000, 5)
      ensures !allowed <==> |old(rejoins)| >= 5 && now - old(rejoins)[|old(rejoins)| - 5] < 30000
    {
      RecentAgain(rejoins, clock, now, REJOIN_WINDOW_MS);
      FullExactly(rejoins, now, REJOIN_WINDOW_MS, REJOIN_MAX_PER_WINDOW);
      SpacedAppend(rejoins, now, REJOIN_WINDOW_MS, REJOIN_MAX_PER_WINDOW);
      RecentAppend(rejoins, now, now, REJOIN_WINDOW_MS);
      hide Recent, Spaced;
      rejoinTimes := Recent(rejoinTimes, now, REJOIN_WINDOW_MS);
      clock := now;
      allowed := |rejoinTimes| < REJOIN_MAX_PER_WINDOW;
      if allowed {
        rejoinTimes := rejoinTimes + [now];
        rejoins := rejoins + [now];
      }
    }

    /** The session's socket connected: mid-session the join is replayed, within the budget; otherwise just report it. */
    method HandleConnected(now: Millis) returns (effect: Effect)
      requires Valid() && clock <= now
      modifies this
      ensures Valid() && hasTokenProvider == old(hasTokenProvider)
      ensures effect.EmitJoin? ==> old(sessionEstablished) && old(lastJoinPayload).Some? && lastJoinPayload == old(lastJoinPayload)
                                   && effect.payload == Routed(lastJoinPayload.value)
                                   && sessionEstablished && rejoins == old(rejoins) + [now] && !tokenRefreshAttempted
                                   && refreshes == old(refreshes)
      ensures effect.FailRecovery? <==> old(sessionEstablished) && old(lastJoinPayload).Some?
                                        && |old(rejoins)| >= 5 && now - old(rejoins)[|old(rejoins)| - 5] < 30000
      ensures effect.FailRecovery? ==> Cleared()
      ensures effect.EmitJoin? || effect.FailRecovery? || effect.ReportConnected?
      ensures effect.ReportConnected? <==> !(old(sessionEstablished) && old(lastJoinPayload).Some?)
      ensures effect.ReportConnected? ==> unchanged(this)
    {
      if sessionEstablished && lastJoinPayload.Some? {
        var allowed := AllowRejoin(now);
        if !allowed {
          ClearSession();
          return FailRecovery;
        }
        tokenRefreshAttempted := false;
        return EmitJoin(Routed(lastJoinPayload.value));
      }
      effect := ReportConnected;
    }

    method HandleJoined()
      requires Valid()
      modifies `sessionEstablished
      ensures Valid() && sessionEstablished
    {
      sessionEstablished := true;
    }

    method HandleReconnectFailed() returns (effect: Option<Effect>)
      requires Valid()
      modifies this
      ensures Valid() && (effect == Some(FailRecovery) <==> old(sessionEstablished) && old(lastJoinPayload).Some?)
      ensures if effect.Some? then Cleared() else unchanged(this)
    {
      if sessionEstablished && lastJoinPayload.Some? {
        ClearSession();
        return Some(FailRecovery);
      }
      effect := None;
    }

    /** A denied rejoin: kicked is terminal elsewhere, an expired token asks the provider once, anything else fails recovery. */
    method HandleJoinError(error: JoinError) returns (effect: Effect)
      requires Valid()
      modifies this
      ensures Valid() && !effect.EmitJoin?
      ensures effect.CallTokenProvider? <==>
              old(sessionEstablished) && old(lastJoinPayload).Some? && error.TokenExpired?
              && old(hasTokenProvider) && !old(tokenRefreshAttempted)
      ensures effect.CallTokenProvider? ==> tokenRefreshAttempted && refreshes == old(refreshes) + 1
                                            && rejoins == old(rejoins) && lastJoinPayload == old(lastJoinPayload)
      ensures effect.FailRecovery? <==> old(sessionEstablished) && old(lastJoinPayload).Some? && !error.Kicked?
                                        && !(error.TokenExpired? && old(hasTokenProvider) && !old(tokenRefreshAttempted))
      ensures effect.FailRecovery? ==> Cleared()
      ensures effect.ReportKicked? || effect.ReportJoinError? ==> unchanged(this)
      ensures effect.ReportKicked? <==> old(sessionEstablished) && old(lastJoinPayload).Some? && error.Kicked?
      ensures effect.ReportJoinError? <==> !(old(sessionEstablished) && old(lastJoinPayload).Some?)
    {
      if !(sessionEstablished && lastJoinPayload.Some?) { return ReportJoinError; }
      if error.Kicked? { return ReportKicked; }
      if error.TokenExpired? && hasTokenProvider && !tokenRefreshAttempted {
        tokenRefreshAttempted := true;
        refreshes := refreshes + 1;
        return CallTokenProvider;
      }
      ClearSession();
      effect := FailRecovery;
    }

    /**
     The provider's promise settles, however late: a token is used only while there is a payload to
     rejoin with; a refused token, or no socket to send the join on, fails recovery.
     */
    method ProviderSettled(token: Option<Token>, hasSocket: bool) returns (effect: Option<Effect>)
      requires Valid()
      modifies this
      ensures Valid() && rejoins <= old(rejoins)
      ensures effect == Some(FailRecovery) <==> token.None? || (old(lastJoinPayload).Some? && !hasSocket)
      ensures effect == Some(FailRecovery) ==> Cleared()
      ensures token.Some? && old(lastJoinPayload).None? ==> effect == None && unchanged(this)
      ensures token.Some? && old(lastJoinPayload).Some? && hasSocket ==>
                lastJoinPayload == Some(old(lastJoinPayload).value.(token := token))
                && effect == Some(EmitJoin(Routed(lastJoinPayload.value))) && rejoins == old(rejoins) && refreshes == old(refreshes)
    {
      if token.None? {
        ClearSession();
        return Some(FailRecovery);
      }
      if lastJoinPayload.None? { return None; }
      lastJoinPayload := Some(lastJoinPayload.value.(token := token));
      effect := JoinRoom(lastJoinPayload.value, None, hasSocket);
      if effect.None? {
        ClearSession();
        return Some(FailRecovery);
      }
    }

    ghost predicate Cleared()
      reads this
    {
      !sessionEstablished && lastJoinPayload == None && !tokenRefreshAttempted && rejoinTimes == [] && rejoins == [] && refreshes == 0
    }

    /** Ends the session on purpose: the budget and the refresh attempt start over with the next one. */
    method ClearSession()
      modifies this
      ensures Valid() && Cleared() && clock == old(clock) && hasTokenProvider == old(hasTokenProvider)
    {
      sessionEstablished, lastJoinPayload, tokenRefreshAttempted, rejoinTimes := false, None, false, [];
      rejoins, refreshes := [], 0;
    }
  }
}
