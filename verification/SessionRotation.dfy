/**
  The cookie session (api/auth.py, api/deps.py, login in api/routes/auth.py): a signed
  token that expires after 24 hours, is re-issued when a request finds it close to
  expiry, and is refused from seven days after login on. Times are whole seconds, as
  int(time.time()) reads them; a token is an unforgeable record of its claims.
 */
module SessionRotation {
  import opened Options

  const JWT_DEFAULT_EXP_SECONDS := 24 * 60 * 60
  const JWT_ROTATION_THRESHOLD_SECONDS := 30 * 60
  const COOKIE_CEILING_SECONDS := 7 * 24 * 60 * 60

  datatype User = User(id: int, tenant: int, role: int)

  /** A claim that is absent or of the wrong type is None. */
  datatype Claims = Claims(sub: Option<int>, tenant: int, role: int, loginAt: Option<int>, iat: int, exp: Option<int>)

  datatype Cookie = Cookie(claims: Claims, maxAge: int)

  /** The successive clock readings of one request: verifying, checking, signing, and the answer's arrival. */
  datatype Request = Request(decode: int, now: int, encode: int, arrive: int)

  datatype Outcome =
    | NotAuthenticated
    | InvalidOrExpired
    | InvalidClaims
    | CeilingReached
    | UserNotFound
    | Accepted(user: User)

  function EncodeJwt(user: User, loginAt: int, now: int): Claims {
    Claims(Some(user.id), user.tenant, user.role, Some(loginAt), now, Some(now + JWT_DEFAULT_EXP_SECONDS))
  }

  /** On or after exp the token must not be accepted (section 4.1.4 of RFC 7519). */
  predicate Expired(c: Claims, now: int) {
    c.exp.Some? && c.exp.value <= now
  }

  predicate ShouldRotate(exp: int, now: int) {
    exp - now < JWT_ROTATION_THRESHOLD_SECONDS
  }

  function Authenticated(token: Option<Claims>, r: Request, users: map<int, User>): Outcome {
    if token == None then NotAuthenticated
    else
      var c := token.value;
      if Expired(c, r.decode) then InvalidOrExpired
      else if c.loginAt == None || c.loginAt.value <= 0 then InvalidClaims
      else if r.now - c.loginAt.value >= COOKIE_CEILING_SECONDS then CeilingReached
      else if c.sub == None then InvalidClaims
      else if c.sub.value !in users then UserNotFound
      else Accepted(users[c.sub.value])
  }

  /** The Set-Cookie of an accepted request whose token is close to expiry. */
  function Rotation(token: Option<Claims>, r: Request, users: map<int, User>): Option<Cookie> {
    match Authenticated(token, r, users)
    case Accepted(user) =>
      var loginAt, exp := token.value.loginAt.value, token.value.exp;
      if exp.Some? && ShouldRotate(exp.value, r.now)
      then Some(Cookie(EncodeJwt(user, loginAt, r.encode), COOKIE_CEILING_SECONDS - (r.now - loginAt)))
      else None
    case _ => None
  }

  // ---- the request handlers, step by step ----

  class Exchange {
    var setCookie: Option<Cookie>   // the response
    var tenant: Option<int>         // tenant_id_var

    constructor ()
      ensures setCookie == None && tenant == None
    {
      setCookie, tenant := None, None;
    }

    method GetCurrentUser(token: Option<Claims>, r: Request, users: map<int, User>) returns (outcome: Outcome)
      modifies this
      ensures outcome == Authenticated(token, r, users)
      ensures setCookie == match Rotation(token, r, users) case None => old(setCookie) case Some(c) => Some(c)
      ensures tenant == if outcome.Accepted? then Some(outcome.user.tenant) else old(tenant)
      ensures outcome.Accepted? ==>
                && token.Some? && !Expired(token.value, r.decode) && token.value.loginAt.Some?
                && r.now < token.value.loginAt.value + COOKIE_CEILING_SECONDS
      ensures setCookie != old(setCookie) ==>
                && outcome.Accepted? && setCookie.Some? && setCookie.value.maxAge >= 1
                && r.now + setCookie.value.maxAge == token.value.loginAt.value + COOKIE_CEILING_SECONDS
    {
      if token == None {
        return NotAuthenticated;
      }
      var claims := token.value;
      if Expired(claims, r.decode) {
        return InvalidOrExpired;
      }
      if claims.loginAt == None || claims.loginAt.value <= 0 {
        return InvalidClaims;
      }
      var loginAt := claims.loginAt.value;
      if r.now - loginAt >= COOKIE_CEILING_SECONDS {
        return CeilingReached;
      }
      if claims.sub == None {
        return InvalidClaims;
      }
      if claims.sub.value !in users {
        return UserNotFound;
      }
      var user := users[claims.sub.value];
      tenant := Some(user.tenant);
      if claims.exp.Some? && ShouldRotate(claims.exp.value, r.now) {
        var renewed := EncodeJwt(user, loginAt, r.encode);
        setCookie := Some(Cookie(renewed, COOKIE_CEILING_SECONDS - (r.now - loginAt)));
      }
      return Accepted(user);
    }

    /** The success branch of login: the browser that stores the answer holds a live session up to the ceiling. */
    method Login(user: User, now: int, encode: int)
      modifies this
      ensures setCookie == Some(Cookie(EncodeJwt(user, now, encode), COOKIE_CEILING_SECONDS)) && tenant == old(tenant)
      ensures forall arrive :: now <= encode <= arrive ==>
                && Stored(setCookie.value, arrive) == LoggedIn(user, now, encode, arrive)
                && Alive(Stored(setCookie.value, arrive), now, user, now)
    {
      setCookie := Some(Cookie(EncodeJwt(user, now, encode), COOKIE_CEILING_SECONDS));
    }
  }

  // ---- the browser's side: one session as a chain of requests ----

  /** The stored cookie and its expiry time: arrival plus Max-Age (section 5.2.2 of RFC 6265). */
  datatype Session = Session(claims: Claims, deadline: int)

  function Stored(c: Cookie, arrive: int): Session {
    Session(c.claims, arrive + c.maxAge)
  }

  function LoggedIn(user: User, now: int, encode: int, arrive: int): Session {
    Session(EncodeJwt(user, now, encode), arrive + COOKIE_CEILING_SECONDS)
  }

  function Sent(s: Session, r: Request): Option<Claims> {
    if r.decode < s.deadline then Some(s.claims) else None
  }

  function Next(s: Session, r: Request, users: map<int, User>): Session {
    match Rotation(Sent(s, r), r, users)
    case None => s
    case Some(c) => Stored(c, r.arrive)
  }

  function AfterRequests(s: Session, rs: seq<Request>, users: map<int, User>): Session {
    if rs == [] then s else Next(AfterRequests(s, rs[..|rs| - 1], users), rs[|rs| - 1], users)
  }

  function OutcomeOf(s: Session, rs: seq<Request>, users: map<int, User>, i: nat): Outcome
    requires i < |rs|
  {
    Authenticated(Sent(AfterRequests(s, rs[..i], users), rs[i]), rs[i], users)
  }

  function LastCheck(start: int, rs: seq<Request>): int {
    if rs == [] then start else rs[|rs| - 1].now
  }

  /** Clock readings never go back, and no request starts more than gap seconds after the last check. */
  ghost predicate Spaced(start: int, rs: seq<Request>, gap: int) {
    rs == [] ||
    var r, before := rs[|rs| - 1], rs[..|rs| - 1];
    && Spaced(start, before, gap)
    && r.decode <= r.now <= r.encode <= r.arrive
    && LastCheck(start, before) <= r.decode <= LastCheck(start, before) + gap
  }

  function LastArrival(arrive: int, rs: seq<Request>): int {
    if rs == [] then arrive else rs[|rs| - 1].arrive
  }

  /** Each request is sent after the answer before it has arrived, so it carries the cookie of that answer. */
  ghost predicate InTurn(arrive: int, rs: seq<Request>) {
    rs == [] ||
    var before := rs[..|rs| - 1];
    InTurn(arrive, before) && LastArrival(arrive, before) <= rs[|rs| - 1].decode
  }

  lemma {:induction false} SpacedWidens(start: int, rs: seq<Request>, gap: int, wider: int)
    requires Spaced(start, rs, gap) && gap <= wider
    ensures Spaced(start, rs, wider)
  {
    if rs == [] {
    } else {
      SpacedWidens(start, rs[..|rs| - 1], gap, wider);
    }
  }

  /** A rotated cookie lives at least a second and, counted from the check, ends exactly seven days after login. */
  lemma RotationKeepsDeadline(token: Option<Claims>, r: Request, users: map<int, User>)
    requires Rotation(token, r, users).Some?
    ensures var c := Rotation(token, r, users).value;
            && c.maxAge >= 1
            && r.now + c.maxAge == token.value.loginAt.value + COOKIE_CEILING_SECONDS
            && c.claims.loginAt == token.value.loginAt
            && (r.now <= r.encode ==> !Expired(c.claims, r.encode))
  {
  }

  /** Along any chain of requests the login time is kept and the cookie never lapses before the ceiling. */
  lemma {:induction false} LoginTimeIsKept(s: Session, rs: seq<Request>, users: map<int, User>)
    requires s.claims.loginAt.Some? && s.deadline >= s.claims.loginAt.value + COOKIE_CEILING_SECONDS
    requires forall i :: 0 <= i < |rs| ==> rs[i].now <= rs[i].arrive
    ensures AfterRequests(s, rs, users).claims.loginAt == s.claims.loginAt
    ensures AfterRequests(s, rs, users).deadline >= s.claims.loginAt.value + COOKIE_CEILING_SECONDS
  {
    if rs == [] {
    } else {
      LoginTimeIsKept(s, rs[..|rs| - 1], users);
    }
  }

  /** No request is accepted at or after login + 7 days, however often the token was rotated. */
  lemma CeilingIsHard(s: Session, rs: seq<Request>, users: map<int, User>, i: nat)
    requires s.claims.loginAt.Some? && s.deadline >= s.claims.loginAt.value + COOKIE_CEILING_SECONDS
    requires forall k :: 0 <= k < |rs| ==> rs[k].now <= rs[k].arrive
    requires i < |rs| && rs[i].now >= s.claims.loginAt.value + COOKIE_CEILING_SECONDS
    ensures !OutcomeOf(s, rs, users, i).Accepted?
  {
    LoginTimeIsKept(s, rs[..i], users);
  }

  /** After every accepted request (and after login) the token is good for at least the threshold. */
  ghost predicate Alive(s: Session, login: int, user: User, now: int) {
    && s.claims.loginAt == Some(login) && s.claims.sub == Some(user.id)
    && s.claims.exp.Some? && s.claims.exp.value - now >= JWT_ROTATION_THRESHOLD_SECONDS
    && s.deadline >= login + COOKIE_CEILING_SECONDS
  }

  lemma RequestKeepsAlive(s: Session, r: Request, users: map<int, User>, login: int, user: User, last: int)
    requires Alive(s, login, user, last) && 0 < login && user.id in users && users[user.id].id == user.id
    requires last <= r.decode <= r.now <= r.encode <= r.arrive && r.decode - last < JWT_ROTATION_THRESHOLD_SECONDS
    requires r.now < login + COOKIE_CEILING_SECONDS
    ensures Authenticated(Sent(s, r), r, users) == Accepted(users[user.id])
    ensures Alive(Next(s, r, users), login, user, r.now)
  {
  }

  lemma {:induction false} ChainStaysAlive(
    user: User, login: int, s: Session, rs: seq<Request>, users: map<int, User>)
    requires Alive(s, login, user, login) && 0 < login && user.id in users && users[user.id].id == user.id
    requires Spaced(login, rs, JWT_ROTATION_THRESHOLD_SECONDS - 1)
    requires forall k :: 0 <= k < |rs| ==> rs[k].now < login + COOKIE_CEILING_SECONDS
    ensures forall i :: 0 <= i < |rs| ==> OutcomeOf(s, rs, users, i) == Accepted(users[user.id])
    ensures Alive(AfterRequests(s, rs, users), login, user, LastCheck(login, rs))
  {
    if rs == [] {
    } else {
      var n := |rs| - 1;
      ChainStaysAlive(user, login, s, rs[..n], users);
      RequestKeepsAlive(AfterRequests(s, rs[..n], users), rs[n], users, login, user, LastCheck(login, rs[..n]));
      forall i | 0 <= i < |rs| ensures OutcomeOf(s, rs, users, i) == Accepted(users[user.id]) {
        if i < n {
          assert rs[..n][..i] == rs[..i];
          assert OutcomeOf(s, rs[..n], users, i) == Accepted(users[user.id]);
        }
      }
    }
  }

  /** A chain of requests by a known user, all before the ceiling, from a fresh login. */
  ghost predicate Chain(
    user: User, users: map<int, User>, login: int, encode: int, arrive: int, rs: seq<Request>, gap: int)
  {
    && 0 < login <= encode <= arrive && user.id in users && users[user.id].id == user.id
    && Spaced(login, rs, gap) && InTurn(arrive, rs)
    && forall k :: 0 <= k < |rs| ==> rs[k].now < login + COOKIE_CEILING_SECONDS
  }

  ghost predicate AllAccepted(s: Session, rs: seq<Request>, users: map<int, User>) {
    forall i :: 0 <= i < |rs| ==> OutcomeOf(s, rs, users, i).Accepted?
  }

  ghost predicate KeepsSessionsAlive(gap: nat) {
    forall user, users, login, encode, arrive, rs :: Chain(user, users, login, encode, arrive, rs, gap) ==>
      AllAccepted(LoggedIn(user, login, encode, arrive), rs, users)
  }

  function AtHalfHour(login: int, n: nat): Request {
    var t := login + JWT_ROTATION_THRESHOLD_SECONDS * n;
    Request(t, t, t, t)
  }

  function EveryHalfHour(login: int, n: nat): (rs: seq<Request>)
    ensures |rs| == n
  {
    if n == 0 then [] else EveryHalfHour(login, n - 1) + [AtHalfHour(login, n)]
  }

  lemma {:induction false} HalfHoursAreSpaced(login: int, n: nat)
    ensures Spaced(login, EveryHalfHour(login, n), JWT_ROTATION_THRESHOLD_SECONDS)
    ensures InTurn(login, EveryHalfHour(login, n))
    ensures LastArrival(login, EveryHalfHour(login, n)) == login + JWT_ROTATION_THRESHOLD_SECONDS * n
    ensures LastCheck(login, EveryHalfHour(login, n)) == login + JWT_ROTATION_THRESHOLD_SECONDS * n
  {
    if n == 0 {
    } else {
      HalfHoursAreSpaced(login, n - 1);
      assert EveryHalfHour(login, n)[..n - 1] == EveryHalfHour(login, n - 1);
    }
  }

  lemma TooEarlyToRotate(user: User, users: map<int, User>, login: int, n: nat)
    requires 0 < n <= 47
    ensures var s := LoggedIn(user, login, login, login); Next(s, AtHalfHour(login, n), users) == s
  {
  }

  /** Requests exactly half an hour apart do not trigger a rotation before the token has expired. */
  lemma {:induction false} HalfHourNeverRotates(user: User, users: map<int, User>, login: int, n: nat)
    requires n <= 47
    ensures var s := LoggedIn(user, login, login, login); AfterRequests(s, EveryHalfHour(login, n), users) == s
  {
    if n == 0 {
    } else {
      HalfHourNeverRotates(user, users, login, n - 1);
      TooEarlyToRotate(user, users, login, n);
      assert EveryHalfHour(login, n)[..n - 1] == EveryHalfHour(login, n - 1);
    }
  }

  lemma {:induction false} HalfHoursAreEarly(login: int, n: nat, k: nat)
    requires k < n
    ensures EveryHalfHour(login, n)[k] == AtHalfHour(login, k + 1)
  {
    if k < n - 1 {
      HalfHoursAreEarly(login, n - 1, k);
    }
  }

  lemma HalfHourExpires(gap: nat)
    requires gap >= 1800
    ensures !KeepsSessionsAlive(gap)
  {
    var user, rs := User(1, 1, 1), EveryHalfHour(1, 48);
    var users, s := map[1 := user], LoggedIn(user, 1, 1, 1);
    HalfHoursAreSpaced(1, 48);
    SpacedWidens(1, rs, JWT_ROTATION_THRESHOLD_SECONDS, gap);
    forall k | 0 <= k < 48 ensures rs[k].now < 1 + COOKIE_CEILING_SECONDS {
      HalfHoursAreEarly(1, 48, k);
    }
    assert Chain(user, users, 1, 1, 1, rs, gap);
    assert !AllAccepted(s, rs, users) by {
      HalfHourNeverRotates(user, users, 1, 47);
      assert rs[..47] == EveryHalfHour(1, 47);
      assert OutcomeOf(s, rs, users, 47) == InvalidOrExpired;
    }
  }

  /** The keep-alive guarantee holds for gaps of up to 1799 seconds and for no longer ones. */
  lemma KeepAliveExactly(gap: nat)
    ensures KeepsSessionsAlive(gap) <==> gap <= 1799
  {
    if gap <= 1799 {
      forall user, users, login, encode, arrive, rs | Chain(user, users, login, encode, arrive, rs, gap)
        ensures AllAccepted(LoggedIn(user, login, encode, arrive), rs, users)
      {
        SpacedWidens(login, rs, gap, JWT_ROTATION_THRESHOLD_SECONDS - 1);
        ChainStaysAlive(user, login, LoggedIn(user, login, encode, arrive), rs, users);
      }
    } else {
      HalfHourExpires(gap);
    }
  }
}
