/** Refresh-token rotation (section 10.4 of RFC 6749), token versions and the
    purge of revocations, over every interleaving. */
module AuthSafety {
  import opened Basics
  import opened AuthProtocol

  // ---------------------------------------------------------------------
  // Invariants
  // ---------------------------------------------------------------------

  /** A jti names one token. */
  ghost predicate JtisUnique(w: World) {
    && (forall t :: t in w.tokens ==> t.jti < w.nextJti)
    && (forall s, t :: s in w.tokens && t in w.tokens && s.jti == t.jti ==> s == t)
    && (forall j :: j in w.revoked ==> j < w.nextJti)
  }

  /** A revocation lasts as long as its token. */
  ghost predicate RevocationsLast(w: World) {
    forall t :: t in w.tokens && t.jti in w.revoked ==> w.revoked[t.jti] == t.exp
  }

  /** Requests work on real tokens. */
  ghost predicate RequestValid(w: World, p: Progress) {
    && (p.Loaded? ==> p.token in w.tokens && p.token.kind == Refresh)
    && (p.Granted? && p.source.Some? ==> p.source.value in w.tokens && p.source.value.kind == Refresh)
  }

  ghost predicate RequestsValid(w: World) {
    forall r :: r in w.requests ==> RequestValid(w, w.requests[r])
  }

  /** A jti claimed in time stays revoked until its expiry, and is claimed in time only once. */
  ghost predicate ClaimedOnce(w: World, t: Token) {
    Of(w.inTime, t.jti) > 0 ==> Of(w.inTime, t.jti) == 1 && (Unexpired(w, t) ==> t.jti in w.revoked)
  }

  ghost predicate ClaimsOnce(w: World) {
    forall t :: t in w.tokens ==> ClaimedOnce(w, t)
  }

  /** Nothing has been counted for a jti that does not exist yet. */
  ghost predicate CountsKnown(w: World) {
    && (forall j :: j in w.inTime || j in w.late || j in w.pairs ==> j < w.nextJti)
  }

  /** The requests that hold the right to mint from a jti. */
  ghost function Minting(w: World, j: nat): set<nat> {
    set r | r in w.requests && w.requests[r].Granted? && w.requests[r].source.Some? && w.requests[r].source.value.jti == j
  }

  /** Each successful claim of a jti pays for at most one pair. */
  ghost predicate PairsPaid(w: World, j: nat) {
    Of(w.pairs, j) + |Minting(w, j)| <= Of(w.inTime, j) + Of(w.late, j)
  }

  ghost predicate Safe(w: World) {
    && JtisUnique(w) && RevocationsLast(w) && RequestsValid(w) && ClaimsOnce(w) && CountsKnown(w)
    && forall j :: PairsPaid(w, j)
  }

  lemma StepKeepsRevokedJtis(w: World, e: Event)
    requires Enabled(w, e) && JtisUnique(w) && RequestsValid(w)
    ensures w.nextJti <= Next(w, e).nextJti && forall j :: j in Next(w, e).revoked ==> j < Next(w, e).nextJti
  {
    if e.Claim? { assert RequestValid(w, w.requests[e.request]); }
  }

  /** Minting takes two jtis that no token has. */
  lemma {:induction false} StepKeepsJtis(w: World, e: Event)
    requires Enabled(w, e) && JtisUnique(w) && RequestsValid(w)
    ensures JtisUnique(Next(w, e))
  {
    StepKeepsRevokedJtis(w, e);
    if e.Mint? {
      var g := w.requests[e.request];
      assert Next(w, e).tokens == w.tokens + {AccessOf(w, g.user, g.ver), RefreshOf(w, g.user, g.ver)};
    } else {
      assert Next(w, e).tokens == w.tokens;
    }
    hide Next;
  }

  lemma StepKeepsRevocations(w: World, e: Event)
    requires Enabled(w, e) && JtisUnique(w) && RevocationsLast(w) && RequestsValid(w)
    ensures RevocationsLast(Next(w, e))
  {
    if e.Claim? { assert RequestValid(w, w.requests[e.request]); }
  }

  lemma StepKeepsRequests(w: World, e: Event)
    requires Enabled(w, e) && RequestsValid(w)
    ensures RequestsValid(Next(w, e))
  {
    var v := Next(w, e);
    assert w.tokens <= v.tokens;
    forall r | r in v.requests ensures RequestValid(v, v.requests[r]) {
      if r in w.requests { assert RequestValid(w, w.requests[r]); }
    }
  }

  lemma StepKeepsCounts(w: World, e: Event)
    requires Enabled(w, e) && JtisUnique(w) && RequestsValid(w) && CountsKnown(w)
    ensures CountsKnown(Next(w, e))
  {
    if e.Claim? || e.Mint? { assert RequestValid(w, w.requests[e.request]); }
  }

  lemma StepKeepsClaim(w: World, e: Event, t: Token)
    requires Enabled(w, e) && JtisUnique(w) && RevocationsLast(w) && RequestsValid(w)
    requires t in w.tokens && ClaimedOnce(w, t)
    ensures ClaimedOnce(Next(w, e), t)
  {
    if e.Claim? { assert RequestValid(w, w.requests[e.request]); }
  }

  lemma StepKeepsClaims(w: World, e: Event)
    requires Enabled(w, e) && JtisUnique(w) && RevocationsLast(w) && RequestsValid(w) && CountsKnown(w) && ClaimsOnce(w)
    ensures ClaimsOnce(Next(w, e))
  {
    forall t | t in Next(w, e).tokens ensures ClaimedOnce(Next(w, e), t) {
      if t in w.tokens { StepKeepsClaim(w, e, t); }
    }
  }

  /** Only claiming and minting move the right to mint. */
  lemma MintingMoves(w: World, e: Event, j: nat)
    requires Enabled(w, e)
    ensures var v := Next(w, e);
            && (e.Mint? ==> Minting(v, j) == Minting(w, j) - {e.request})
            && (e.Claim? ==>
                  if v.requests[e.request].Granted? && w.requests[e.request].token.jti == j
                  then e.request !in Minting(w, j) && Minting(v, j) == Minting(w, j) + {e.request}
                  else Minting(v, j) == Minting(w, j))
            && (!e.Mint? && !e.Claim? ==> Minting(v, j) == Minting(w, j))
  {
  }

  predicate ClaimsJti(w: World, e: Event, j: nat)
    requires Enabled(w, e)
  {
    e.Claim? && Next(w, e).requests[e.request].Granted? && w.requests[e.request].token.jti == j
  }

  predicate MintsJti(w: World, e: Event, j: nat)
    requires Enabled(w, e)
  {
    e.Mint? && w.requests[e.request].source.Some? && w.requests[e.request].source.value.jti == j
  }

  lemma ClaimsMove(w: World, e: Event, j: nat)
    requires Enabled(w, e)
    ensures var v := Next(w, e);
            Of(v.inTime, j) + Of(v.late, j) == Of(w.inTime, j) + Of(w.late, j) + if ClaimsJti(w, e, j) then 1 else 0
  {
    if !e.Claim? { assert Next(w, e).inTime == w.inTime && Next(w, e).late == w.late; }
  }

  lemma PairsMove(w: World, e: Event, j: nat)
    requires Enabled(w, e)
    ensures Of(Next(w, e).pairs, j) == Of(w.pairs, j) + if MintsJti(w, e, j) then 1 else 0
  {
    if !e.Mint? { assert Next(w, e).pairs == w.pairs; }
  }

  lemma TalliesMove(w: World, e: Event, j: nat)
    requires Enabled(w, e)
    ensures var v := Next(w, e);
            && Of(v.inTime, j) + Of(v.late, j) == Of(w.inTime, j) + Of(w.late, j) + (if ClaimsJti(w, e, j) then 1 else 0)
            && Of(v.pairs, j) == Of(w.pairs, j) + (if MintsJti(w, e, j) then 1 else 0)
  {
    hide Next, Of, ClaimsJti, MintsJti;
    ClaimsMove(w, e, j);
    PairsMove(w, e, j);
  }

  lemma MintersMove(w: World, e: Event, j: nat)
    requires Enabled(w, e)
    ensures |Minting(Next(w, e), j)| ==
            |Minting(w, j)| + (if ClaimsJti(w, e, j) then 1 else 0) - (if MintsJti(w, e, j) then 1 else 0)
  {
    MintingMoves(w, e, j);
    if e.Mint? {
      MintingHolds(w, e.request, j);
    }
    hide Minting;
  }

  lemma StepKeepsPairs(w: World, e: Event, j: nat)
    requires Enabled(w, e) && PairsPaid(w, j)
    ensures PairsPaid(Next(w, e), j)
  {
    TalliesMove(w, e, j);
    MintersMove(w, e, j);
  }

  lemma MintingHolds(w: World, r: nat, j: nat)
    requires r in w.requests && w.requests[r].Granted?
    ensures r in Minting(w, j) <==> w.requests[r].source.Some? && w.requests[r].source.value.jti == j
  {
  }

  lemma {:induction false} RunIsSafe(es: seq<Event>)
    requires IsRun(es)
    ensures Safe(After(es))
    decreases |es|
  {
    if es == [] {
      assert forall j :: Minting(START, j) == {};
    } else {
      var w, e := After(es[..|es| - 1]), es[|es| - 1];
      RunIsSafe(es[..|es| - 1]);
      StepKeepsJtis(w, e);
      StepKeepsRevocations(w, e);
      StepKeepsRequests(w, e);
      StepKeepsCounts(w, e);
      StepKeepsClaims(w, e);
      forall j ensures PairsPaid(Next(w, e), j) { StepKeepsPairs(w, e, j); }
    }
  }

  // ---------------------------------------------------------------------
  // Rotation
  // ---------------------------------------------------------------------

  /** A refresh token is claimed at most once until its expiry, so unless a
      claim comes later than that it yields at most one new pair. */
  lemma {:induction false} OnePairPerRefreshToken(es: seq<Event>, t: Token)
    requires IsRun(es) && t in After(es).tokens
    ensures var w := After(es);
            && Of(w.inTime, t.jti) <= 1
            && Of(w.pairs, t.jti) <= 1 + Of(w.late, t.jti)
  {
    RunIsSafe(es);
    assert PairsPaid(After(es), t.jti);
  }

  /** The second of its expiry: a token still decodes, but the purge no longer
      spares its revocation. */
  predicate InLastSecond(w: World, t: Token) {
    t.exp < w.now && Decodes(w, t)
  }

  /** Whether the event is a claim of this jti that was won, within the life of its
      token if `inTime`, after it otherwise. */
  predicate Wins(w: World, e: Event, j: nat, inTime: bool) {
    && e.Claim? && e.request in w.requests && w.requests[e.request].Loaded?
    && w.requests[e.request].token.jti == j && j !in w.revoked
    && (w.now <= w.requests[e.request].token.exp) == inTime
  }

  /** Whether it hands out a pair for this jti. */
  predicate PaysOut(w: World, e: Event, j: nat) {
    && e.Mint? && e.request in w.requests && w.requests[e.request].Granted?
    && w.requests[e.request].source.Some? && w.requests[e.request].source.value.jti == j
  }

  datatype Kind = ClaimInTime | LateClaim | PairMinted

  predicate Is(kind: Kind, w: World, e: Event, j: nat) {
    match kind
    case ClaimInTime => Wins(w, e, j, true)
    case LateClaim => Wins(w, e, j, false)
    case PairMinted => PaysOut(w, e, j)
  }

  function Tallied(kind: Kind, w: World, j: nat): nat {
    match kind case ClaimInTime => Of(w.inTime, j) case LateClaim => Of(w.late, j) case PairMinted => Of(w.pairs, j)
  }

  ghost function Total(kind: Kind, es: seq<Event>, j: nat): nat
    requires IsRun(es)
  {
    if es == [] then 0 else
    Total(kind, es[..|es| - 1], j) + if Is(kind, After(es[..|es| - 1]), es[|es| - 1], j) then 1 else 0
  }

  lemma StepTallies(kind: Kind, w: World, e: Event, j: nat)
    requires Enabled(w, e)
    ensures Tallied(kind, Next(w, e), j) == Tallied(kind, w, j) + if Is(kind, w, e, j) then 1 else 0
  {
    if !e.Claim? && !e.Mint? {
      assert Next(w, e).inTime == w.inTime && Next(w, e).late == w.late && Next(w, e).pairs == w.pairs;
    }
  }

  /** What these claims speak of are numbers of events of the run. */
  lemma {:induction false} TalliesAreTotals(kind: Kind, es: seq<Event>, j: nat)
    requires IsRun(es)
    ensures Tallied(kind, After(es), j) == Total(kind, es, j)
    decreases |es|
  {
    if es != [] {
      hide Next, Tallied, Is;
      TalliesAreTotals(kind, es[..|es| - 1], j);
      StepTallies(kind, After(es[..|es| - 1]), es[|es| - 1], j);
    } else {
      assert After([]) == START;
    }
  }

  /** What mints a pair without a sign-in is a genuine refresh token. */
  lemma {:induction false} OnlyRefreshTokensRotate(es: seq<Event>, r: nat)
    requires IsRun(es) && r in After(es).requests
    ensures var p := After(es).requests[r];
            && (p.Loaded? ==> p.token in After(es).tokens && p.token.kind == Refresh)
            && (p.Granted? && p.source.Some? ==> p.source.value in After(es).tokens && p.source.value.kind == Refresh)
  {
    RunIsSafe(es);
    assert RequestValid(After(es), After(es).requests[r]);
  }

  /** Once claimed in time, a refresh token is dead, but for the second of its
      expiry, and then only if its revocation has been purged. */
  lemma {:induction false} ClaimedIsSpent(es: seq<Event>, t: Token)
    requires IsRun(es) && t in After(es).tokens && Of(After(es).inTime, t.jti) > 0
    ensures var w := After(es);
            Accepted(w, t) <==> InLastSecond(w, t) && t.jti !in w.revoked && SessionCurrent(w, t)
  {
    RunIsSafe(es);
  }

  /** Claiming succeeds again exactly when the revocation row is gone. */
  lemma {:induction false} SecondClaimNeedsExpiry(es: seq<Event>, r: nat)
    requires IsRun(es) && Enabled(After(es), Claim(r))
    requires Of(After(es).inTime, After(es).requests[r].token.jti) > 0
    ensures var w := After(es); var t := w.requests[r].token;
            && (Next(w, Claim(r)).requests[r].Granted? <==> t.jti !in w.revoked)
            && (Next(w, Claim(r)).requests[r].Granted? ==> !Unexpired(w, t))
  {
    RunIsSafe(es);
    assert RequestValid(After(es), After(es).requests[r]);
  }

  lemma {:induction false} Append(es: seq<Event>, e: Event) returns (fs: seq<Event>)
    requires IsRun(es) && Enabled(After(es), e)
    ensures fs == es + [e] && IsRun(fs) && After(fs) == Next(After(es), e)
  {
    fs := es + [e];
    assert fs[..|fs| - 1] == es;
  }

  /** A run in which a user has signed in and holds refresh token t. */
  lemma {:induction false} SignedIn() returns (es: seq<Event>, t: Token)
    ensures IsRun(es) && t in After(es).tokens && t.kind == Refresh && t.exp == REFRESH_TTL
    ensures var w := After(es);
            && w.now == 0 && w.requests.Keys == {0} && w.revoked == map[] && w.pairs == map[]
            && t.user in w.users && w.users[t.user] == User(t.ver, true)
  {
    es := Append([], CreateUser("u"));
    es := Append(es, Login(0, "u"));
    es := Append(es, Mint(0));
    t := Token("u", 0, 1, Refresh, REFRESH_TTL);
  }

  /** Two requests load a token; one waits until after its expiry and a purge:
      both claims succeed. */
  lemma {:induction false} LateClaimsSucceed() returns (es: seq<Event>, t: Token)
    ensures IsRun(es) && t in After(es).tokens && Of(After(es).pairs, t.jti) == 2
  {
    hide IsRun, After;
    es, t := SignedIn();
    es := Append(es, LoadRefresh(1, t));
    es := Append(es, LoadRefresh(2, t));
    es := Append(es, Claim(1));
    es := Append(es, Mint(1));
    es := Append(es, Tick(REFRESH_TTL + 1));
    es := Append(es, Purge);
    es := Append(es, Claim(2));
    es := Append(es, Mint(2));
  }

  lemma StepKeepsRevoked(w: World, e: Event, t: Token)
    requires Enabled(w, e) && JtisUnique(w) && RevocationsLast(w)
    requires t in w.tokens && (Unexpired(w, t) ==> t.jti in w.revoked)
    ensures var v := Next(w, e); t in v.tokens && (Unexpired(v, t) ==> t.jti in v.revoked)
  {
  }

  /** Since es, a purge came after the token's expiry. */
  ghost predicate PurgedSince(es: seq<Event>, all: seq<Event>, t: Token) {
    exists i :: |es| <= i < |all| && all[i] == Purge && IsRun(all[..i]) && t.exp < After(all[..i]).now
  }

  lemma PurgedStill(es: seq<Event>, all: seq<Event>, t: Token)
    requires all != [] && PurgedSince(es, all[..|all| - 1], t)
    ensures PurgedSince(es, all, t)
  {
    var before := all[..|all| - 1];
    var i :| |es| <= i < |before| && before[i] == Purge && IsRun(before[..i]) && t.exp < After(before[..i]).now;
    assert all[..i] == before[..i];
  }

  /** Only a purge after its expiry takes a token's revocation away. */
  lemma OnlyPurgesForget(w: World, e: Event, t: Token)
    requires Enabled(w, e) && RevocationsLast(w) && t in w.tokens && t.jti in w.revoked
    ensures t.jti in Next(w, e).revoked || (e == Purge && t.exp < w.now)
  {
  }

  /** A revoked token, by rotation or by logout, is never accepted again, but for
      the second of its expiry, and then only after a purge within it. */
  lemma {:induction false} RevokedIsFinal(es: seq<Event>, more: seq<Event>, t: Token)
    requires IsRun(es) && IsRun(es + more) && t in After(es).tokens && t.jti in After(es).revoked
    ensures var w := After(es + more);
            && t in w.tokens && (Unexpired(w, t) ==> t.jti in w.revoked)
            && (t.jti in w.revoked || PurgedSince(es, es + more, t))
            && (Accepted(w, t) <==> InLastSecond(w, t) && t.jti !in w.revoked && SessionCurrent(w, t))
    decreases |more|
  {
    if more == [] {
      assert es + more == es;
    } else {
      var all := es + more;
      var before := all[..|all| - 1];
      assert before == es + more[..|more| - 1];
      RevokedIsFinal(es, more[..|more| - 1], t);
      RunIsSafe(before);
      StepKeepsRevoked(After(before), all[|all| - 1], t);
      if t.jti in After(before).revoked {
        OnlyPurgesForget(After(before), all[|all| - 1], t);
      } else {
        PurgedStill(es, all, t);
      }
    }
  }

  /** A run in which that happens: revoked, purged in the second of its expiry,
      and accepted again. */
  lemma {:induction false} RevokedReturns() returns (es: seq<Event>, t: Token)
    ensures IsRun(es) && es != [] && es[|es| - 1] == Purge && IsRun(es[..|es| - 1])
    ensures t.jti in After(es[..|es| - 1]).revoked && Accepted(After(es), t)
  {
    hide IsRun, After;
    es, t := SignedIn();
    es := Append(es, Revoke(t));
    es := Append(es, Tick(REFRESH_TTL + SECOND / 2));
    var before := es;
    es := Append(es, Purge);
    assert es[..|es| - 1] == before;
  }

  // ---------------------------------------------------------------------
  // Token versions
  // ---------------------------------------------------------------------

  lemma StepKeepsVersions(w: World, e: Event, u: string)
    requires Enabled(w, e) && u in w.users
    ensures u in Next(w, e).users && w.users[u].version <= Next(w, e).users[u].version
  {
  }

  lemma {:induction false} VersionsGrow(es: seq<Event>, more: seq<Event>, u: string)
    requires IsRun(es) && IsRun(es + more) && u in After(es).users
    ensures u in After(es + more).users && After(es).users[u].version <= After(es + more).users[u].version
    decreases |more|
  {
    if more == [] {
      assert es + more == es;
    } else {
      var all := es + more;
      assert all[..|all| - 1] == es + more[..|more| - 1];
      VersionsGrow(es, more[..|more| - 1], u);
      StepKeepsVersions(After(all[..|all| - 1]), all[|all| - 1], u);
    }
  }

  /** The version a request will mint under, fixed when it read the user. */
  predicate MintsUnder(p: Progress, u: string, ver: nat) {
    (p.Loaded? && p.token.user == u && p.token.ver == ver) || (p.Granted? && p.user == u && p.ver == ver)
  }

  /** A request keeps that version, whatever others do, until it has minted;
      the only new tokens of its user and version come from such requests. */
  lemma VersionIsFixed(w: World, e: Event, r: nat, u: string, ver: nat)
    requires Enabled(w, e) && r in w.requests && MintsUnder(w.requests[r], u, ver)
    ensures var p := Next(w, e).requests[r];
            MintsUnder(p, u, ver) || p == Replayed(u) || (e == Mint(r) && p == Answered)
    ensures e == Mint(r) ==> forall t :: t in Next(w, e).tokens - w.tokens ==> t.user == u && t.ver == ver
  {
  }

  /** What was minted, or is yet to be minted, from a session read before a
      bump of its user's token_version is not accepted at any time after it. */
  lemma BumpEndsSessions(es: seq<Event>, more: seq<Event>, u: string, ver: nat, t: Token)
    requires IsRun(es) && IsRun(es + more) && u in After(es).users
    requires ver < After(es).users[u].version
    requires t.user == u && t.ver == ver
    ensures !Accepted(After(es + more), t)
  {
    VersionsGrow(es, more, u);
  }

  /** Nothing carries a version ahead of its user's. */
  ghost predicate Behind(w: World, u: string, ver: nat) {
    u in w.users && ver <= w.users[u].version
  }

  ghost predicate RequestBehind(w: World, p: Progress) {
    match p
    case Loaded(t) => Behind(w, t.user, t.ver)
    case Granted(u, ver, _) => Behind(w, u, ver)
    case Replayed(u) => u in w.users
    case Answered => true
  }

  ghost predicate VersionsBehind(w: World) {
    && (forall t :: t in w.tokens ==> Behind(w, t.user, t.ver))
    && (forall r :: r in w.requests ==> RequestBehind(w, w.requests[r]))
  }

  lemma StepKeepsUserBehind(w: World, e: Event, u: string, ver: nat)
    requires Enabled(w, e) && Behind(w, u, ver)
    ensures Behind(Next(w, e), u, ver)
  {
  }

  lemma {:induction false} StepKeepsRequestBehind(w: World, e: Event, r: nat)
    requires Enabled(w, e) && VersionsBehind(w) && r in Next(w, e).requests
    ensures RequestBehind(Next(w, e), Next(w, e).requests[r])
  {
    if r in w.requests { assert RequestBehind(w, w.requests[r]); }
  }

  lemma {:induction false} StepKeepsBehind(w: World, e: Event)
    requires Enabled(w, e) && VersionsBehind(w)
    ensures VersionsBehind(Next(w, e))
  {
    var v := Next(w, e);
    forall t | t in v.tokens ensures Behind(v, t.user, t.ver) {
      if t in w.tokens {
        StepKeepsUserBehind(w, e, t.user, t.ver);
      } else {
        var g := w.requests[e.request];
        assert RequestBehind(w, g);
        StepKeepsUserBehind(w, e, g.user, g.ver);
      }
    }
    forall r | r in v.requests ensures RequestBehind(v, v.requests[r]) {
      StepKeepsRequestBehind(w, e, r);
    }
  }

  lemma {:induction false} RunIsBehind(es: seq<Event>)
    requires IsRun(es)
    ensures VersionsBehind(After(es))
    decreases |es|
  {
    if es != [] {
      RunIsBehind(es[..|es| - 1]);
      StepKeepsBehind(After(es[..|es| - 1]), es[|es| - 1]);
    }
  }

  /** The events that raise a user's token_version. */
  predicate RaisesVersion(w: World, e: Event, u: string)
    requires Enabled(w, e)
  {
    match e
    case ChangePassword(_, x) => x == u
    case Bump(x) => x == u
    case SetActive(x, active) => x == u && !active
    case EndSessions(r) => w.requests[r].user == u
    case _ => false
  }

  lemma VersionsRiseExactly(w: World, e: Event, u: string)
    requires Enabled(w, e) && u in w.users
    ensures u in Next(w, e).users
    ensures Next(w, e).users[u].version == w.users[u].version + if RaisesVersion(w, e, u) then 1 else 0
  {
  }

  /** Only an administrator changes who is active. */
  lemma ActivityChangesExactly(w: World, e: Event, u: string)
    requires Enabled(w, e) && u in w.users && u in Next(w, e).users
    ensures Next(w, e).users[u].active == if e.SetActive? && e.user == u then e.active else w.users[u].active
  {
  }

  /** A user begins active, with version 0. */
  lemma UsersBegin(w: World, e: Event, u: string)
    requires Enabled(w, e) && u !in w.users && u in Next(w, e).users
    ensures e == CreateUser(u) && Next(w, e).users[u].active && Next(w, e).users[u].version == 0
  {
  }

  /** No token outlives its time, an hour or a week, and its expiry is a whole second. */
  ghost predicate Lives(w: World, t: Token) {
    t.exp % 1_000_000 == 0 && t.exp <= w.now + if t.kind == Access then 3_600_000_000 else 604_800_000_000
  }

  lemma StepKeepsLives(w: World, e: Event, t: Token)
    requires Enabled(w, e) && t in Next(w, e).tokens && (t in w.tokens ==> Lives(w, t))
    ensures Lives(Next(w, e), t)
  {
    if t !in w.tokens {
      assert e.Mint?;
      assert Next(w, e).now == w.now;
    } else {
      assert w.now <= Next(w, e).now;
    }
    hide Next;
  }

  lemma {:induction false} TokensLive(es: seq<Event>, t: Token)
    requires IsRun(es) && t in After(es).tokens
    ensures Lives(After(es), t)
    decreases |es|
  {
    if es != [] {
      var w, e := After(es[..|es| - 1]), es[|es| - 1];
      hide Next, Lives;
      if t in w.tokens { TokensLive(es[..|es| - 1], t); }
      StepKeepsLives(w, e, t);
    }
  }

  /** A session read before the version was raised, by whatever event, is over:
      no token of the user minted so far is ever accepted again, nor one minted
      later by a request that had already read the user. */
  lemma EveryBumpEndsSessions(es: seq<Event>, e: Event, more: seq<Event>, u: string, t: Token)
    requires IsRun(es) && Enabled(After(es), e) && IsRun(es + [e] + more) && RaisesVersion(After(es), e, u)
    requires t.user == u
    requires t in After(es).tokens || exists q :: q in After(es).requests && MintsUnder(After(es).requests[q], u, t.ver)
    ensures !Accepted(After(es + [e] + more), t)
  {
    RunIsBehind(es);
    var w := After(es);
    if t in w.tokens {
      assert Behind(w, t.user, t.ver);
    } else {
      var q :| q in w.requests && MintsUnder(w.requests[q], u, t.ver);
      assert RequestBehind(w, w.requests[q]);
    }
    VersionsRiseExactly(w, e, u);
    var fs := Append(es, e);
    BumpEndsSessions(fs, more, u, t.ver, t);
  }

  /** Replaying a rotated token ends the whole family. */
  lemma ReplayEndsTheFamily(es: seq<Event>, more: seq<Event>, r: nat, t: Token)
    requires IsRun(es) && Enabled(After(es), EndSessions(r)) && IsRun(es + [EndSessions(r)] + more)
    requires t.user == After(es).requests[r].user
    requires t in After(es).tokens
             || exists q :: q in After(es).requests && MintsUnder(After(es).requests[q], t.user, t.ver)
    ensures !Accepted(After(es + [EndSessions(r)] + more), t)
  {
    EveryBumpEndsSessions(es, EndSessions(r), more, t.user, t);
  }

  // ---------------------------------------------------------------------
  // The purge
  // ---------------------------------------------------------------------

  /** A purge makes a token acceptable exactly if it was revoked, its session is
      current and this is the second of its expiry, and it makes none unacceptable;
      a refresh request takes its answer otherwise than before exactly if the token
      was revoked and has expired, of a user that is active. */
  lemma PurgeShowsExactly(es: seq<Event>, t: Token)
    requires IsRun(es) && t in After(es).tokens
    ensures var w, v := After(es), Next(After(es), Purge);
            && (Accepted(v, t) <==> Accepted(w, t) || (t.jti in w.revoked && InLastSecond(w, t) && SessionCurrent(w, t)))
            && (LoadOutcome(v, t) != LoadOutcome(w, t) <==>
                  t.jti in w.revoked && !Unexpired(w, t) && t.user in w.users && w.users[t.user].active)
  {
    RunIsSafe(es);
  }

  /** Purging expired revocations changes no decision about an unexpired token. */
  lemma PurgeIsInvisible(es: seq<Event>, t: Token)
    requires IsRun(es) && t in After(es).tokens && Unexpired(After(es), t)
    ensures var w, v := After(es), Next(After(es), Purge);
            && (Accepted(v, t) <==> Accepted(w, t))
            && LoadOutcome(v, t) == LoadOutcome(w, t)
  {
    PurgeShowsExactly(es, t);
  }
}
