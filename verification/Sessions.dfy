/** Session cookies of the BFF: what the middleware answers, and what the browser is left with. Times are seconds. */
module Sessions {
  import opened Common

  const HOST_NAME := "__Host-bff_sid"
  const PLAIN_NAME := "bff_sid"
  const SKEW := 30

  /** secure is the configuration flag; it decides which of the two names is in use. */
  datatype Manager = Manager(secure: bool) {
    function Name(): string { if secure then HOST_NAME else PLAIN_NAME }
    function OtherName(): string { if secure then PLAIN_NAME else HOST_NAME }
  }

  /** One Set-Cookie header. maxAge 0 means that the attribute is not sent. */
  datatype SetCookie = SetCookie(name: string, value: string, maxAge: int, expires: int, secure: bool)

  function IdCookie(m: Manager, sid: string, ttl: int, now: int): SetCookie {
    SetCookie(m.Name(), sid, ttl, now + ttl, m.secure)
  }

  function Clearing(m: Manager): seq<SetCookie> {
    [SetCookie(m.Name(), "", -1, 0, m.secure), SetCookie(m.OtherName(), "", -1, 0, m.secure)]
  }

  // --- The browser ----------------------------------------------------------------------------------------

  datatype Stored = Stored(value: string, until: int)

  type Jar = map<string, Stored>

  /** Max-Age goes before Expires; a cookie that is over is removed; a __Host- cookie must be Secure. */
  function Accept(jar: Jar, h: SetCookie, now: int): Jar {
    var until := if h.maxAge == 0 then h.expires else now + h.maxAge;
    if h.name == HOST_NAME && !h.secure then jar
    else if until <= now then jar - {h.name}
    else jar[h.name := Stored(h.value, until)]
  }

  function AcceptAll(jar: Jar, hs: seq<SetCookie>, now: int): Jar
    decreases |hs|
  {
    if hs == [] then jar else AcceptAll(Accept(jar, hs[0], now), hs[1..], now)
  }

  /** The cookies a request carries. */
  function Sent(jar: Jar, now: int): map<string, string> {
    map n | n in jar && jar[n].until > now :: jar[n].value
  }

  // --- What Identity answers -------------------------------------------------------------------------------

  datatype Code = Unauthenticated | NotFound | FailedPrecondition | Unavailable | DeadlineExceeded | OtherCode

  datatype SessionInfo = SessionInfo(subject: string, customer: string, userStatus: string,
                                     accessToken: string, accessTokenExpiresIn: int)

  datatype InfoReply = Info(info: SessionInfo) | GrpcError(code: Code, message: string) | PlainError

  /** A failed refresh may have issued an id all the same. */
  datatype RefreshReply = Refreshed(id: string, expiresIn: int, accessToken: string) | RefreshFailed(issued: Option<string>)

  /** The answers to the n-th call of each kind within one request. */
  datatype Identity = Identity(info: nat -> InfoReply, refresh: nat -> RefreshReply)

  datatype Call = AskInfo(sid: string) | AskRefresh(sid: string)

  // --- What the middleware does ------------------------------------------------------------------------------

  /** The request context the handler sees; a route without the cookie scheme has none. */
  datatype Context = NoSession | Context(sid: string, accessToken: string, info: SessionInfo)

  /** status is 0 when the response is left to the handler. */
  datatype Answer = Answer(headers: seq<SetCookie>, status: int, calls: seq<Call>, handler: Option<Context>)

  function ReadSessionID(m: Manager, cookies: map<string, string>): Option<string> {
    if m.Name() in cookies && cookies[m.Name()] != "" then Some(cookies[m.Name()])
    else if m.OtherName() in cookies && cookies[m.OtherName()] != "" then Some(cookies[m.OtherName()])
    else None
  }

  predicate HasFreshToken(info: SessionInfo) {
    info.accessToken != "" && info.accessTokenExpiresIn > SKEW
  }

  /** Identity knows the session but its token or its idle time has run out. */
  predicate WantsRefresh(reply: InfoReply) {
    match reply
    case Info(info) => !HasFreshToken(info)
    case GrpcError(code, message) => code == Unauthenticated && message == "SESSION_EXPIRED"
    case PlainError => false
  }

  function Admit(headers: seq<SetCookie>, calls: seq<Call>, info: SessionInfo, sid: string, token: string): Answer {
    if info.userStatus != "" && info.userStatus != "ACTIVE" then Answer(headers, 403, calls, None)
    else Answer(headers, 0, calls, Some(Context(sid, token, info)))
  }

  function Rotate(m: Manager, sid: string, identity: Identity, now: int): Answer {
    var calls := [AskInfo(sid), AskRefresh(sid)];
    match identity.refresh(0)
    case RefreshFailed(_) => Answer(Clearing(m), 401, calls, None)
    case Refreshed(id, ttl, token) =>
      var calls' := calls + [AskInfo(id)];
      match identity.info(1)
      case Info(info) => Admit([IdCookie(m, id, ttl, now)], calls', info, if id != "" then id else sid, token)
      case _ => Answer([IdCookie(m, id, ttl, now)] + Clearing(m), 401, calls', None)
  }

  function Refuse(m: Manager, sid: string, reply: InfoReply): Answer
    requires !reply.Info?
  {
    var calls := [AskInfo(sid)];
    if reply.PlainError? then Answer([], 502, calls, None)
    else match reply.code
      case Unauthenticated => Answer(Clearing(m), 401, calls, None)
      case NotFound => Answer(Clearing(m), 401, calls, None)
      case FailedPrecondition => Answer(Clearing(m), 401, calls, None)
      case Unavailable => Answer([], 503, calls, None)
      case DeadlineExceeded => Answer([], 503, calls, None)
      case OtherCode => Answer([], 502, calls, None)
  }

  /** The answer to a request that presents sid. */
  function Asked(m: Manager, sid: string, identity: Identity, now: int): Answer {
    var reply := identity.info(0);
    if WantsRefresh(reply) then Rotate(m, sid, identity, now)
    else match reply
      case Info(info) => Admit([], [AskInfo(sid)], info, sid, info.accessToken)
      case _ => Refuse(m, sid, reply)
  }

  function Respond(m: Manager, needsCookie: bool, cookies: map<string, string>, identity: Identity, now: int): Answer {
    if !needsCookie then Answer([], 0, [], Some(NoSession))
    else match ReadSessionID(m, cookies)
      case None => Answer([], 401, [], None)
      case Some(sid) => Asked(m, sid, identity, now)
  }

  // --- The middleware as it runs ------------------------------------------------------------------------------

  /** One exchange: the response under construction and the calls made on the way. */
  class Exchange {
    const m: Manager
    const identity: Identity
    const now: int
    var headers: seq<SetCookie>
    var status: int
    var calls: seq<Call>
    var infos: nat
    var refreshes: nat
    var handler: Option<Context>

    ghost function View(): Answer
      reads this
    {
      Answer(headers, status, calls, handler)
    }

    /** Nothing is answered yet, and admitting this session gives the answer. */
    ghost predicate Continues(session: (SessionInfo, string, string), sid: string, answer: Answer)
      reads this
    {
      && status == 0 && handler.None?
      && answer == Admit(headers, calls, session.0, if session.1 != "" then session.1 else sid, session.2)
    }

    constructor (m: Manager, identity: Identity, now: int)
      ensures this.m == m && this.identity == identity && this.now == now
      ensures View() == Answer([], 0, [], None) && infos == 0 && refreshes == 0
    {
      this.m, this.identity, this.now := m, identity, now;
      headers, status, calls, infos, refreshes, handler := [], 0, [], 0, 0, None;
    }

    method WriteHeader(code: int)
      modifies this`status
      ensures status == if old(status) == 0 then code else old(status)
    {
      if status == 0 {
        status := code;
      }
    }

    method Clear()
      modifies this`headers
      ensures headers == old(headers) + Clearing(m)
    {
      headers := headers + [SetCookie(m.Name(), "", -1, 0, m.secure)];
      for i := 0 to 2
        invariant headers == old(headers) + if i == 0 || (i == 1 && m.secure) then Clearing(m)[..1] else Clearing(m)
      {
        var name := if i == 0 then HOST_NAME else PLAIN_NAME;
        if name == m.Name() {
          continue;
        }
        headers := headers + [SetCookie(name, "", -1, 0, m.secure)];
      }
    }

    /** A browser keeps the id under the name in use until the lifetime is over, and drops it if there is none. */
    method WriteSessionID(sid: string, ttl: int)
      modifies this`headers
      ensures headers == old(headers) + [IdCookie(m, sid, ttl, now)]
      ensures forall jar: Jar :: Accept(jar, headers[|old(headers)|], now) ==
                                 if ttl <= 0 then jar - {m.Name()} else jar[m.Name() := Stored(sid, now + ttl)]
    {
      headers := headers + [SetCookie(m.Name(), sid, ttl, now + ttl, m.secure)];
    }

    method GetSessionInfo(sid: string) returns (reply: InfoReply)
      modifies this`calls, this`infos
      ensures calls == old(calls) + [AskInfo(sid)] && infos == old(infos) + 1 && reply == identity.info(old(infos))
    {
      calls := calls + [AskInfo(sid)];
      reply := identity.info(infos);
      infos := infos + 1;
    }

    method RefreshSession(sid: string) returns (reply: RefreshReply)
      modifies this`calls, this`refreshes
      ensures calls == old(calls) + [AskRefresh(sid)] && refreshes == old(refreshes) + 1
      ensures reply == identity.refresh(old(refreshes))
    {
      calls := calls + [AskRefresh(sid)];
      reply := identity.refresh(refreshes);
      refreshes := refreshes + 1;
    }

    /** The session's info, its new id if it was rotated, and the access token; None after an answer was written. */
    method GetSessionInfoWithRefresh(sid: string) returns (session: Option<(SessionInfo, string, string)>)
      requires View() == Answer([], 0, [], None) && infos == 0 && refreshes == 0
      modifies this
      ensures session.None? ==> View() == Asked(m, sid, identity, now) && View().handler.None?
      ensures session.Some? ==> Continues(session.value, sid, Asked(m, sid, identity, now))
    {
      var reply := GetSessionInfo(sid);
      if reply.Info? {
        if reply.info.accessToken != "" && reply.info.accessTokenExpiresIn > SKEW {
          return Some((reply.info, "", reply.info.accessToken));
        }
        session := RefreshAndAskAgain(sid);
        return;
      }
      if reply.PlainError? {
        WriteHeader(502);
        return None;
      }
      match reply.code
      case Unauthenticated =>
        if reply.message == "SESSION_EXPIRED" {
          session := RefreshAndAskAgain(sid);
          return;
        }
        Clear();
        WriteHeader(401);
        return None;
      case NotFound =>
        Clear();
        WriteHeader(401);
        return None;
      case FailedPrecondition =>
        Clear();
        WriteHeader(401);
        return None;
      case Unavailable =>
        WriteHeader(503);
        return None;
      case DeadlineExceeded =>
        WriteHeader(503);
        return None;
      case OtherCode =>
        WriteHeader(502);
        return None;
    }

    method RefreshAndAskAgain(sid: string) returns (session: Option<(SessionInfo, string, string)>)
      requires View() == Answer([], 0, [AskInfo(sid)], None) && infos == 1 && refreshes == 0
      modifies this
      ensures View().handler.None?
      ensures session.None? ==> View() == Rotate(m, sid, identity, now)
      ensures session.Some? ==> Continues(session.value, sid, Rotate(m, sid, identity, now))
    {
      var refreshed := RefreshSession(sid);
      if refreshed.RefreshFailed? {
        Clear();
        WriteHeader(401);
        return None;
      }
      WriteSessionID(refreshed.id, refreshed.expiresIn);
      var again := GetSessionInfo(refreshed.id);
      if !again.Info? {
        Clear();
        WriteHeader(401);
        return None;
      }
      return Some((again.info, refreshed.id, refreshed.accessToken));
    }

    /** AuthSession around a handler. */
    method AuthSession(needsCookie: bool, cookies: map<string, string>)
      requires View() == Answer([], 0, [], None) && infos == 0 && refreshes == 0
      modifies this
      ensures View() == Respond(m, needsCookie, cookies, identity, now)
    {
      if !needsCookie {
        handler := Some(NoSession);
        return;
      }
      var presented := ReadSessionID(m, cookies);
      if presented.None? || presented.value == "" {
        WriteHeader(401);
        return;
      }
      var sid := presented.value;
      var session := GetSessionInfoWithRefresh(sid);
      if session.None? {
        return;
      }
      var (info, newSid, token) := session.value;
      if newSid != "" && newSid != sid {
        sid := newSid;
      }
      if info.userStatus != "" && info.userStatus != "ACTIVE" {
        WriteHeader(403);
        return;
      }
      handler := Some(Context(sid, token, info));
    }
  }
}
