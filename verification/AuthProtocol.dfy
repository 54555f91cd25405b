/** Sessions as requests that interleave at their database statements
    (backend/src/api/auth.py, backend/src/api/routes/auth.py). */
module AuthProtocol {
  import opened Basics

  const ACCESS_TTL: Time := 60 * 60 * SECOND
  const REFRESH_TTL: Time := 7 * 24 * 3600 * SECOND

  datatype Kind = Access | Refresh

  /** A token nobody can forge: its subject, the token_version it was minted
      under, a unique jti, its kind and its expiry. */
  datatype Token = Token(user: string, ver: nat, jti: nat, kind: Kind, exp: Time)

  datatype User = User(version: nat, active: bool)

  /** How far a request is: holding a validated refresh token, holding the
      right to mint, obliged to end the user's sessions, or answered. */
  datatype Progress =
    | Loaded(token: Token)
    | Granted(user: string, ver: nat, source: Option<Token>)
    | Replayed(user: string)
    | Answered

  /** `inTime` and `late` count the successful claims of a jti made until and
      after its expiry, `pairs` the token pairs minted from it. */
  datatype World = World(
    now: Time,
    users: map<string, User>,
    revoked: map<nat, Time>,
    tokens: set<Token>,
    nextJti: nat,
    requests: map<nat, Progress>,
    inTime: map<nat, nat>,
    late: map<nat, nat>,
    pairs: map<nat, nat>)

  datatype Event =
    | Tick(to: Time)
    | CreateUser(user: string)
    | Login(request: nat, user: string)
    | LoadRefresh(request: nat, token: Token)
    | Purge
    | Claim(request: nat)
    | EndSessions(request: nat)
    | Mint(request: nat)
    | Revoke(token: Token)
    | ChangePassword(request: nat, user: string)
    | Bump(user: string)
    | SetActive(user: string, active: bool)

  const START: World := World(0, map[], map[], {}, 0, map[], map[], map[], map[])

  function Of(m: map<nat, nat>, k: nat): nat {
    if k in m then m[k] else 0
  }

  /** An exp claim has no fraction of a second. */
  function WholeSeconds(t: Time): Time {
    t / SECOND * SECOND
  }

  /** The purge spares the revocation of this token. */
  predicate Unexpired(w: World, t: Token) {
    w.now <= t.exp
  }

  /** decode_token compares whole seconds: a token decodes through the second of its expiry. */
  predicate Decodes(w: World, t: Token) {
    w.now / SECOND <= t.exp / SECOND
  }

  predicate SessionCurrent(w: World, t: Token) {
    t.user in w.users && w.users[t.user].active && t.ver == w.users[t.user].version
  }

  /** load_session: would this token be accepted now? */
  predicate Accepted(w: World, t: Token) {
    t in w.tokens && Decodes(w, t) && t.jti !in w.revoked && SessionCurrent(w, t)
  }

  /** check_session_state on the refresh path, in the order the code checks;
      the token was decoded before, and may have expired since. */
  function LoadOutcome(w: World, t: Token): Progress {
    if t.user !in w.users || !w.users[t.user].active then Answered
    else if t.jti in w.revoked then Replayed(t.user)
    else if t.ver != w.users[t.user].version then Answered
    else Loaded(t)
  }

  predicate Enabled(w: World, e: Event) {
    match e
    case Tick(to) => w.now <= to
    case CreateUser(u) => u !in w.users
    case Login(r, u) => r !in w.requests && u in w.users && w.users[u].active
    case LoadRefresh(r, t) => r !in w.requests && t in w.tokens && t.kind == Refresh
    case Purge => true
    case Claim(r) => r in w.requests && w.requests[r].Loaded?
    case EndSessions(r) => r in w.requests && w.requests[r].Replayed?
    case Mint(r) => r in w.requests && w.requests[r].Granted?
    case Revoke(t) => t in w.tokens
    case ChangePassword(r, u) => r !in w.requests && u in w.users
    case Bump(u) => u in w.users
    case SetActive(u, _) => u in w.users
  }

  function Bumped(w: World, u: string): World {
    if u in w.users then w.(users := w.users[u := w.users[u].(version := w.users[u].version + 1)]) else w
  }

  /** INSERT ... ON CONFLICT DO NOTHING */
  function Revoked(w: World, t: Token): World {
    if t.jti in w.revoked then w else w.(revoked := w.revoked[t.jti := t.exp])
  }

  function AccessOf(w: World, user: string, ver: nat): Token {
    Token(user, ver, w.nextJti, Access, WholeSeconds(w.now + ACCESS_TTL))
  }

  function RefreshOf(w: World, user: string, ver: nat): Token {
    Token(user, ver, w.nextJti + 1, Refresh, WholeSeconds(w.now + REFRESH_TTL))
  }

  function Next(w: World, e: Event): World
    requires Enabled(w, e)
  {
    match e
    case Tick(to) => w.(now := to)
    case CreateUser(u) => w.(users := w.users[u := User(0, true)])
    case Login(r, u) => w.(requests := w.requests[r := Granted(u, w.users[u].version, None)])
    case LoadRefresh(r, t) => w.(requests := w.requests[r := LoadOutcome(w, t)])
    case Purge => w.(revoked := map j | j in w.revoked && w.revoked[j] >= w.now :: w.revoked[j])
    case Claim(r) =>
      var t := w.requests[r].token;
      if t.jti in w.revoked then w.(requests := w.requests[r := Replayed(t.user)]) else
      Revoked(w, t).(
        requests := w.requests[r := Granted(t.user, t.ver, Some(t))],
        inTime := if Unexpired(w, t) then w.inTime[t.jti := Of(w.inTime, t.jti) + 1] else w.inTime,
        late := if Unexpired(w, t) then w.late else w.late[t.jti := Of(w.late, t.jti) + 1])
    case EndSessions(r) => Bumped(w, w.requests[r].user).(requests := w.requests[r := Answered])
    case Mint(r) =>
      var g := w.requests[r];
      w.(tokens := w.tokens + {AccessOf(w, g.user, g.ver), RefreshOf(w, g.user, g.ver)},
         nextJti := w.nextJti + 2,
         requests := w.requests[r := Answered],
         pairs := if g.source.Some? then w.pairs[g.source.value.jti := Of(w.pairs, g.source.value.jti) + 1] else w.pairs)
    case Revoke(t) => Revoked(w, t)
    case ChangePassword(r, u) =>
      Bumped(w, u).(requests := w.requests[r := Granted(u, w.users[u].version + 1, None)])
    case Bump(u) => Bumped(w, u)
    case SetActive(u, active) =>
      var v := if active then w else Bumped(w, u);
      v.(users := v.users[u := v.users[u].(active := active)])
  }

  ghost predicate IsRun(es: seq<Event>)
    decreases |es|, 0
  {
    es == [] || (IsRun(es[..|es| - 1]) && Enabled(After(es[..|es| - 1]), es[|es| - 1]))
  }

  ghost function After(es: seq<Event>): World
    requires IsRun(es)
    decreases |es|, 1
  {
    if es == [] then START else Next(After(es[..|es| - 1]), es[|es| - 1])
  }
}
