/** What a request of a protected route is answered, from what Identity answered. */
module SessionAnswers {
  import opened Common
  import opened Sessions
  import opened SessionRotation

  /** The session is known, but without a token that lasts longer than 30 seconds, or its idle time is over. */
  predicate NeedsRefresh(first: InfoReply) {
    || (first.Info? && (first.info.accessToken == "" || first.info.accessTokenExpiresIn <= 30))
    || first == GrpcError(Unauthenticated, "SESSION_EXPIRED")
  }

  /** The info the request ends up with: the first one, or after a refresh the second. */
  function FinalInfo(identity: Identity): Option<SessionInfo> {
    if !NeedsRefresh(identity.info(0)) then
      if identity.info(0).Info? then Some(identity.info(0).info) else None
    else if identity.refresh(0).Refreshed? && identity.info(1).Info? then Some(identity.info(1).info)
    else None
  }

  predicate IsAllowed(info: SessionInfo) {
    info.userStatus == "" || info.userStatus == "ACTIVE"
  }

  /** Identity refuses the session: unknown, at its absolute end, revoked, or not to be refreshed. */
  predicate IsRefused(identity: Identity) {
    var first := identity.info(0);
    || (first.GrpcError? && (first.code == NotFound || first.code == FailedPrecondition))
    || (first.GrpcError? && first.code == Unauthenticated && first.message != "SESSION_EXPIRED")
    || (NeedsRefresh(first) && (identity.refresh(0).RefreshFailed? || !identity.info(1).Info?))
  }

  /** The handler runs exactly for a session with an info whose user is active; any other user gets 403. */
  lemma HandlerRunsIff(m: Manager, cookies: map<string, string>, identity: Identity, now: int)
    ensures var a, presented, final := Respond(m, true, cookies, identity, now), ReadSessionID(m, cookies), FinalInfo(identity);
            && (a.handler.Some? <==> presented.Some? && final.Some? && IsAllowed(final.value))
            && (a.status == 403 <==> presented.Some? && final.Some? && !IsAllowed(final.value))
  {
  }

  /** The handler gets that info, the token of the refresh or else the info's own, and the id in force. */
  lemma HandlerGets(m: Manager, cookies: map<string, string>, identity: Identity, now: int)
    ensures var a, presented, final := Respond(m, true, cookies, identity, now), ReadSessionID(m, cookies), FinalInfo(identity);
            a.handler.Some? && presented.Some? && final.Some? ==>
              a.handler.value ==
              if NeedsRefresh(identity.info(0)) && identity.refresh(0).Refreshed?
              then Context(if identity.refresh(0).id != "" then identity.refresh(0).id else presented.value,
                           identity.refresh(0).accessToken, final.value)
              else Context(presented.value, final.value.accessToken, final.value)
  {
  }

  /** 401 exactly without a cookie or for a refused session, 502 and 503 exactly when Identity could not answer. */
  lemma StatusIff(m: Manager, cookies: map<string, string>, identity: Identity, now: int)
    ensures var a, presented, first := Respond(m, true, cookies, identity, now), ReadSessionID(m, cookies), identity.info(0);
            && (a.status == 401 <==> presented.None? || IsRefused(identity))
            && (a.status == 502 <==> presented.Some? && (first.PlainError? || (first.GrpcError? && first.code == OtherCode)))
            && (a.status == 503 <==>
                  presented.Some? && first.GrpcError? && (first.code == Unavailable || first.code == DeadlineExceeded))
            && a.status in {0, 401, 403, 502, 503}
  {
  }

  /** A refresh is asked for exactly when the first info calls for it. */
  lemma RefreshIff(m: Manager, cookies: map<string, string>, identity: Identity, now: int)
    ensures AsksRefresh(Respond(m, true, cookies, identity, now).calls) <==>
            ReadSessionID(m, cookies).Some? && NeedsRefresh(identity.info(0))
  {
    CallsOfRequest(m, true, cookies, identity, now);
  }

  /** A route without the cookie scheme goes straight to its handler. */
  lemma OpenRoute(m: Manager, cookies: map<string, string>, identity: Identity, now: int)
    ensures Respond(m, false, cookies, identity, now) == Answer([], 0, [], Some(NoSession))
  {
  }

  /** The id is that of the cookie in use if it has one, else that of the other name. */
  lemma PresentedIs(cookies: map<string, string>)
    ensures ReadSessionID(Manager(true), cookies) ==
            if "__Host-bff_sid" in cookies && cookies["__Host-bff_sid"] != "" then Some(cookies["__Host-bff_sid"])
            else if "bff_sid" in cookies && cookies["bff_sid"] != "" then Some(cookies["bff_sid"]) else None
    ensures ReadSessionID(Manager(false), cookies) ==
            if "bff_sid" in cookies && cookies["bff_sid"] != "" then Some(cookies["bff_sid"])
            else if "__Host-bff_sid" in cookies && cookies["__Host-bff_sid"] != "" then Some(cookies["__Host-bff_sid"]) else None
  {
  }

  /** The headers the middleware sends, attribute by attribute. */
  lemma HeadersAre(secure: bool, sid: string, ttl: int, now: int)
    ensures var used, other := if secure then "__Host-bff_sid" else "bff_sid", if secure then "bff_sid" else "__Host-bff_sid";
            && IdCookie(Manager(secure), sid, ttl, now) == SetCookie(used, sid, ttl, now + ttl, secure)
            && Clearing(Manager(secure)) == [SetCookie(used, "", -1, 0, secure), SetCookie(other, "", -1, 0, secure)]
  {
  }

  /** The newest id of a browser is the last one a login or a refresh issued, even if the refresh then failed. */
  lemma NewestIs(m: Manager, b: Browser, e: Event)
    ensures After(m, b, e).newest ==
            match e
            case Login(id, _, _, _) => if id != "" then Some(id) else b.newest
            case Request(needsCookie, identity, now, _) =>
              if !needsCookie || ReadSessionID(m, Sent(b.jar, now)).None? || !NeedsRefresh(identity.info(0)) then b.newest
              else match identity.refresh(0)
                case Refreshed(id, _, _) => Some(id)
                case RefreshFailed(issued) => if issued.Some? then issued else b.newest
  {
    if e.Request? {
      CallsOfRequest(m, e.needsCookie, Sent(b.jar, e.now), e.identity, e.now);
    }
  }
}
