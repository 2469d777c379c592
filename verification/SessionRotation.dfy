/** One browser over any sequence of logins and requests. */
module SessionRotation {
  import opened Common
  import opened Sessions

  /** newest is the last id Identity issued to this browser. */
  datatype Browser = Browser(jar: Jar, newest: Option<string>)

  /** arrives says whether the browser gets the response. */
  datatype Event =
    | Login(id: string, ttl: int, now: int, arrives: bool)
    | Request(needsCookie: bool, identity: Identity, now: int, arrives: bool)

  predicate AsksRefresh(calls: seq<Call>) {
    exists k :: 0 <= k < |calls| && calls[k].AskRefresh?
  }

  /** The id Identity issued while it answered, if it did. */
  function Issued(m: Manager, b: Browser, e: Event): Option<string> {
    match e
    case Login(id, _, _, _) => if id == "" then None else Some(id)
    case Request(needsCookie, identity, now, _) =>
      if !AsksRefresh(Respond(m, needsCookie, Sent(b.jar, now), identity, now).calls) then None
      else match identity.refresh(0)
        case Refreshed(id, _, _) => Some(id)
        case RefreshFailed(issued) => issued
  }

  /** Login writes no cookie for an empty id. */
  function HeadersOf(m: Manager, b: Browser, e: Event): seq<SetCookie> {
    match e
    case Login(id, ttl, now, _) => if id == "" then [] else [IdCookie(m, id, ttl, now)]
    case Request(needsCookie, identity, now, _) =>
      Respond(m, needsCookie, Sent(b.jar, now), identity, now).headers
  }

  function After(m: Manager, b: Browser, e: Event): Browser {
    Browser(if e.arrives then AcceptAll(b.jar, HeadersOf(m, b, e), e.now) else b.jar,
            if Issued(m, b, e).Some? then Issued(m, b, e) else b.newest)
  }

  function Play(m: Manager, b: Browser, es: seq<Event>): Browser {
    if es == [] then b else After(m, Play(m, b, es[..|es| - 1]), es[|es| - 1])
  }

  /** No cookie under the other name, and under the own name nothing or the newest id. */
  ghost predicate HoldsNewest(m: Manager, b: Browser) {
    && m.OtherName() !in b.jar
    && (m.Name() in b.jar ==> b.jar[m.Name()].value != "" && b.newest == Some(b.jar[m.Name()].value))
  }

  /** The ids Identity issues are not empty. */
  predicate IssuesIds(e: Event) {
    e.Request? ==>
      match e.identity.refresh(0)
      case Refreshed(id, _, _) => id != ""
      case RefreshFailed(issued) => issued != Some("")
  }

  // --- Headers on the jar --------------------------------------------------------------------------------

  lemma AcceptIdCookie(m: Manager, jar: Jar, sid: string, ttl: int, now: int)
    ensures AcceptAll(jar, [IdCookie(m, sid, ttl, now)], now) ==
            if ttl <= 0 then jar - {m.Name()} else jar[m.Name() := Stored(sid, now + ttl)]
  {
    var h := IdCookie(m, sid, ttl, now);
    assert [h][1..] == [];
    assert AcceptAll(Accept(jar, h, now), [], now) == Accept(jar, h, now);
  }

  /** Clearing always removes the own cookie. */
  lemma AcceptClearing(m: Manager, jar: Jar, now: int)
    requires m.OtherName() !in jar
    ensures AcceptAll(jar, Clearing(m), now) == jar - {m.Name()}
  {
    var hs := Clearing(m);
    assert hs[1..] == [hs[1]] && [hs[1]][1..] == [];
    var jar1 := Accept(jar, hs[0], now);
    assert jar1 == jar - {m.Name()};
    assert Accept(jar1, hs[1], now) == jar1;
    assert AcceptAll(jar1, [hs[1]], now) == AcceptAll(Accept(jar1, hs[1], now), [], now);
  }

  lemma AcceptRotatedThenCleared(m: Manager, jar: Jar, sid: string, ttl: int, now: int)
    requires m.OtherName() !in jar
    ensures AcceptAll(jar, [IdCookie(m, sid, ttl, now)] + Clearing(m), now) == jar - {m.Name()}
  {
    var h := IdCookie(m, sid, ttl, now);
    assert ([h] + Clearing(m))[1..] == Clearing(m);
    AcceptClearing(m, Accept(jar, h, now), now);
    assert Accept(jar, h, now) - {m.Name()} == jar - {m.Name()};
  }

  // --- One answer -------------------------------------------------------------------------------------------

  predicate Rotates(m: Manager, cookies: map<string, string>, needsCookie: bool, identity: Identity) {
    needsCookie && ReadSessionID(m, cookies).Some? && WantsRefresh(identity.info(0))
  }

  /** A request asks for at most two infos and one refresh: the presented id first, and after a refresh the new one. */
  lemma CallsOfRequest(m: Manager, needsCookie: bool, cookies: map<string, string>, identity: Identity, now: int)
    ensures var calls := Respond(m, needsCookie, cookies, identity, now).calls;
            && |calls| <= 3
            && (AsksRefresh(calls) <==> Rotates(m, cookies, needsCookie, identity))
            && (forall k :: 0 <= k < |calls| ==> (calls[k].AskRefresh? <==> k == 1))
            && (forall k :: 0 <= k < |calls| && k < 2 ==> Some(calls[k].sid) == ReadSessionID(m, cookies))
            && (|calls| == 3 ==> identity.refresh(0).Refreshed? && calls[2] == AskInfo(identity.refresh(0).id))
  {
    var calls := Respond(m, needsCookie, cookies, identity, now).calls;
    if Rotates(m, cookies, needsCookie, identity) {
      assert calls[1].AskRefresh?;
    }
  }

  /** The headers end with the two that clear the session. */
  predicate Clears(m: Manager, headers: seq<SetCookie>) {
    var n := |headers|;
    n >= 2 && headers[n - 2] == Clearing(m)[0] && headers[n - 1] == Clearing(m)[1]
  }

  /** Cookies are cleared exactly with 401 after Identity was asked. They stay as they are when Identity could not
      answer, and change otherwise only by a refresh, to its id. */
  lemma CookiesOfRequest(m: Manager, needsCookie: bool, cookies: map<string, string>, identity: Identity, now: int)
    ensures var a := Respond(m, needsCookie, cookies, identity, now);
            && (Clears(m, a.headers) <==> a.status == 401 && a.calls != [])
            && (a.status in {502, 503} ==> a.headers == [])
            && (a.headers != [] && !Clears(m, a.headers) ==>
                  Rotates(m, cookies, needsCookie, identity) && identity.refresh(0).Refreshed? &&
                  a.headers == [IdCookie(m, identity.refresh(0).id, identity.refresh(0).expiresIn, now)])
            && (a.handler.Some? <==> a.status == 0)
  {
    if needsCookie && ReadSessionID(m, cookies).Some? {
      CookiesOfAsked(m, ReadSessionID(m, cookies).value, identity, now);
    }
  }

  lemma CookiesOfAsked(m: Manager, sid: string, identity: Identity, now: int)
    ensures var a := Asked(m, sid, identity, now);
            && a.calls != []
            && (Clears(m, a.headers) <==> a.status == 401)
            && (a.status in {502, 503} ==> a.headers == [])
            && (a.headers != [] && !Clears(m, a.headers) ==>
                  WantsRefresh(identity.info(0)) && identity.refresh(0).Refreshed? &&
                  a.headers == [IdCookie(m, identity.refresh(0).id, identity.refresh(0).expiresIn, now)])
            && (a.handler.Some? <==> a.status == 0)
  {
  }

  /** The jar after the response of a request, by how it went. */
  function JarAfter(m: Manager, jar: Jar, needsCookie: bool, identity: Identity, now: int): Jar {
    var a := Respond(m, needsCookie, Sent(jar, now), identity, now);
    if a.status == 401 && a.calls != [] then jar - {m.Name()}
    else if Rotates(m, Sent(jar, now), needsCookie, identity) && identity.refresh(0).Refreshed? then
      if identity.refresh(0).expiresIn <= 0 then jar - {m.Name()}
      else jar[m.Name() := Stored(identity.refresh(0).id, now + identity.refresh(0).expiresIn)]
    else jar
  }

  lemma JarAfterRequest(m: Manager, jar: Jar, needsCookie: bool, identity: Identity, now: int)
    requires m.OtherName() !in jar
    ensures AcceptAll(jar, Respond(m, needsCookie, Sent(jar, now), identity, now).headers, now) ==
            JarAfter(m, jar, needsCookie, identity, now)
  {
    AcceptClearing(m, jar, now);
    match identity.refresh(0)
    case RefreshFailed(_) =>
    case Refreshed(id, ttl, _) =>
      AcceptIdCookie(m, jar, id, ttl, now);
      AcceptRotatedThenCleared(m, jar, id, ttl, now);
  }

  // --- What every event keeps ----------------------------------------------------------------------------------

  /** The browser misses the response in which its id was replaced. */
  predicate LosesId(m: Manager, b: Browser, e: Event) {
    && !e.arrives && Issued(m, b, e).Some? && m.Name() in b.jar
    && Issued(m, b, e) != Some(b.jar[m.Name()].value)
  }

  lemma RequestKeepsNewest(m: Manager, b: Browser, e: Event)
    requires HoldsNewest(m, b) && e.Request? && IssuesIds(e) && e.arrives
    ensures HoldsNewest(m, After(m, b, e))
  {
    JarAfterRequest(m, b.jar, e.needsCookie, e.identity, e.now);
    CallsOfRequest(m, e.needsCookie, Sent(b.jar, e.now), e.identity, e.now);
  }

  lemma LoginKeepsNewest(m: Manager, b: Browser, e: Event)
    requires HoldsNewest(m, b) && e.Login? && e.arrives
    ensures HoldsNewest(m, After(m, b, e))
  {
    AcceptIdCookie(m, b.jar, e.id, e.ttl, e.now);
  }

  /** An event keeps the invariant unless the browser misses its new id, and only then does it not. */
  lemma EventKeepsNewestIff(m: Manager, b: Browser, e: Event)
    requires HoldsNewest(m, b) && IssuesIds(e)
    ensures HoldsNewest(m, After(m, b, e)) <==> !LosesId(m, b, e)
  {
    if e.arrives {
      if e.Request? {
        RequestKeepsNewest(m, b, e);
      } else {
        LoginKeepsNewest(m, b, e);
      }
    }
  }

  /** From a jar without a cookie of the other name: after any events whose responses arrive, the jar is empty or
      holds the newest id issued to the browser. */
  lemma {:induction false} JarHoldsNewest(m: Manager, b: Browser, es: seq<Event>)
    requires HoldsNewest(m, b)
    requires forall i :: 0 <= i < |es| ==> IssuesIds(es[i]) && es[i].arrives
    ensures HoldsNewest(m, Play(m, b, es))
    decreases |es|
  {
    if es != [] {
      JarHoldsNewest(m, b, es[..|es| - 1]);
      EventKeepsNewestIff(m, Play(m, b, es[..|es| - 1]), es[|es| - 1]);
    }
  }

  ghost predicate AlwaysHoldsNewest(m: Manager, b: Browser, es: seq<Event>) {
    HoldsNewest(m, Play(m, b, es)) && (es != [] ==> AlwaysHoldsNewest(m, b, es[..|es| - 1]))
  }

  predicate NoneLosesId(m: Manager, b: Browser, es: seq<Event>) {
    es != [] ==>
      var n := |es| - 1;
      NoneLosesId(m, b, es[..n]) && !LosesId(m, Play(m, b, es[..n]), es[n])
  }

  /** All along any sequence of events the jar is empty or holds the newest id exactly when in none of them the
      browser misses its new id. */
  lemma {:induction false} JarHoldsNewestIff(m: Manager, b: Browser, es: seq<Event>)
    requires HoldsNewest(m, b) && forall i :: 0 <= i < |es| ==> IssuesIds(es[i])
    ensures AlwaysHoldsNewest(m, b, es) <==> NoneLosesId(m, b, es)
    decreases |es|
  {
    if es != [] {
      var n := |es| - 1;
      JarHoldsNewestIff(m, b, es[..n]);
      if AlwaysHoldsNewest(m, b, es[..n]) {
        EventKeepsNewestIff(m, Play(m, b, es[..n]), es[n]);
      }
    }
  }

  /** A request of a protected route that reaches its handler presented the newest id, and hands on the newest
      id there is after it. */
  lemma HandlerSeesNewest(m: Manager, b: Browser, e: Event)
    requires HoldsNewest(m, b) && e.Request? && e.needsCookie && IssuesIds(e)
    ensures var a, presented := Respond(m, true, Sent(b.jar, e.now), e.identity, e.now), ReadSessionID(m, Sent(b.jar, e.now));
            && (presented.Some? ==> presented == b.newest)
            && (a.handler.Some? ==> a.handler.value.Context? && Some(a.handler.value.sid) == After(m, b, e).newest)
  {
    CallsOfRequest(m, true, Sent(b.jar, e.now), e.identity, e.now);
  }

  /** The condition on the other name is needed: what a request presents is not the newest id exactly when the
      own cookie is over and one of the other name is left. */
  lemma PresentsOtherIff(m: Manager, b: Browser, now: int)
    requires m.Name() in b.jar ==> b.jar[m.Name()].value != "" && b.newest == Some(b.jar[m.Name()].value)
    ensures var presented := ReadSessionID(m, Sent(b.jar, now));
            presented.Some? && presented != b.newest <==>
            && (m.Name() !in b.jar || b.jar[m.Name()].until <= now)
            && m.OtherName() in b.jar && b.jar[m.OtherName()].until > now
            && b.jar[m.OtherName()].value != "" && b.newest != Some(b.jar[m.OtherName()].value)
  {
  }

  // --- Where the newest id is not presented ------------------------------------------------------------------

  /** Identity finds the session idle and issues a new id for it. */
  function IdleThenRefreshed(id: string, ttl: int, token: string, info: SessionInfo): Identity {
    Identity(n => if n == 0 then GrpcError(Unauthenticated, "SESSION_EXPIRED") else Info(info),
             n => Refreshed(id, ttl, token))
  }

  lemma AfterLogin(m: Manager, jar: Jar, id: string, ttl: int, now: int)
    requires id != "" && ttl > 0
    ensures Play(m, Browser(jar, None), [Login(id, ttl, now, true)]) ==
            Browser(jar[m.Name() := Stored(id, now + ttl)], Some(id))
  {
    var e := Login(id, ttl, now, true);
    assert [e][..0] == [];
    assert Play(m, Browser(jar, None), [e][..0]) == Browser(jar, None);
    AcceptIdCookie(m, jar, id, ttl, now);
  }

  /** A browser that misses the response in which its id was replaced is left with the retired one. */
  lemma LostResponseKeepsOldId(m: Manager, oldId: string, newId: string, ttl: int, token: string, info: SessionInfo,
                               now: int, later: int)
    requires oldId != "" && newId != "" && oldId != newId && ttl > 0 && now <= later < now + ttl
    ensures var es := [Login(oldId, ttl, now, true),
                       Request(true, IdleThenRefreshed(newId, ttl, token, info), later, false)];
            !HoldsNewest(m, Play(m, Browser(map[], None), es))
  {
    var login, request := Login(oldId, ttl, now, true), Request(true, IdleThenRefreshed(newId, ttl, token, info), later, false);
    var b := Browser(map[m.Name() := Stored(oldId, now + ttl)], Some(oldId));
    AfterLogin(m, map[], oldId, ttl, now);
    assert [login, request][..1] == [login];
    CallsOfRequest(m, true, Sent(b.jar, later), request.identity, later);
    assert LosesId(m, b, request);
    EventKeepsNewestIff(m, b, request);
  }

  /** A cookie left under the other name is presented as soon as the own one is over. */
  lemma LeftoverIsPresented(m: Manager, stale: string, id: string, ttl: int, now: int)
    requires stale != "" && id != "" && stale != id && ttl > 0
    ensures var b := Play(m, Browser(map[m.OtherName() := Stored(stale, now + ttl + 1)], None), [Login(id, ttl, now, true)]);
            b.newest == Some(id) && ReadSessionID(m, Sent(b.jar, now + ttl)) == Some(stale)
  {
    AfterLogin(m, map[m.OtherName() := Stored(stale, now + ttl + 1)], id, ttl, now);
  }
}
