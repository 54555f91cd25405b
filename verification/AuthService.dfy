/** The authentication endpoints (backend/src/api/routes/auth.py), statement by
    statement, with an await wherever the code has one. */
module AuthService {
  import opened Basics
  import opened AuthProtocol
  import opened AuthSafety

  predicate Owns(e: Event, r: nat) {
    (e.Login? || e.LoadRefresh? || e.Claim? || e.EndSessions? || e.Mint? || e.ChangePassword?) && e.request == r
  }

  /** h grew to k by the steps of other requests only. */
  ghost predicate Continues(h: seq<Event>, k: seq<Event>, r: nat) {
    h <= k && forall i :: |h| <= i < |k| ==> !Owns(k[i], r)
  }

  /** The request stands where it stood; time, users and tokens only grow. */
  ghost predicate SameRequest(w: World, v: World, r: nat) {
    && (r in v.requests <==> r in w.requests)
    && (r in w.requests ==> v.requests[r] == w.requests[r])
    && w.users.Keys <= v.users.Keys && w.tokens <= v.tokens && w.now <= v.now
  }

  lemma {:induction false} AwaitKeepsRequest(h: seq<Event>, k: seq<Event>, r: nat)
    requires IsRun(h) && IsRun(k) && Continues(h, k, r)
    ensures SameRequest(After(h), After(k), r)
    decreases |k|
  {
    if |k| > |h| {
      AwaitKeepsRequest(h, k[..|k| - 1], r);
      OthersKeepRequest(After(k[..|k| - 1]), k[|k| - 1], r);
    } else {
      assert h == k;
    }
  }

  /** The state after n events, one that the stretch from h to k went through. */
  ghost predicate Witnessed(h: seq<Event>, k: seq<Event>, n: nat, w: World) {
    |h| <= n <= |k| && IsRun(k[..n]) && w == After(k[..n])
  }

  /** Between h and k, request r minted a pair. */
  ghost predicate Minted(h: seq<Event>, k: seq<Event>, r: nat) {
    exists i :: |h| <= i < |k| && k[i] == Mint(r)
  }

  /** Between h and k, request r ended the user's sessions. */
  ghost predicate Ended(h: seq<Event>, k: seq<Event>, r: nat) {
    exists i :: |h| <= i < |k| && k[i] == EndSessions(r)
  }

  /** Between h and k, expired revocations were purged. */
  ghost predicate Purged(h: seq<Event>, k: seq<Event>) {
    exists i :: |h| <= i < |k| && k[i] == Purge
  }

  /** Minted now: good for an hour and for a week, to the second. */
  predicate FreshPair(access: Token, refresh: Token, now: Time) {
    && access.kind == Access && refresh.kind == Refresh
    && now + 3_599_000_000 < access.exp <= now + 3_600_000_000 && access.exp % 1_000_000 == 0
    && now + 604_799_000_000 < refresh.exp <= now + 604_800_000_000 && refresh.exp % 1_000_000 == 0
    && access.jti != refresh.jti
  }

  lemma OthersKeepRequest(w: World, e: Event, r: nat)
    requires Enabled(w, e) && !Owns(e, r)
    ensures SameRequest(w, Next(w, e), r)
  {
  }

  lemma StretchesJoin(h: seq<Event>, k: seq<Event>, l: seq<Event>, r: nat)
    requires h <= k <= l
    ensures Minted(h, l, r) <==> Minted(h, k, r) || Minted(k, l, r)
    ensures Ended(h, l, r) <==> Ended(h, k, r) || Ended(k, l, r)
  {
    if i :| |h| <= i < |k| && k[i] == Mint(r) { assert l[i] == Mint(r); }
    if i :| |k| <= i < |l| && l[i] == Mint(r) { assert |h| <= i; }
    if i :| |h| <= i < |l| && l[i] == Mint(r) { assert i < |k| ==> k[i] == Mint(r); }
    if i :| |h| <= i < |k| && k[i] == EndSessions(r) { assert l[i] == EndSessions(r); }
    if i :| |k| <= i < |l| && l[i] == EndSessions(r) { assert |h| <= i; }
    if i :| |h| <= i < |l| && l[i] == EndSessions(r) { assert i < |k| ==> k[i] == EndSessions(r); }
  }

  class Database {
    var world: World
    ghost var history: seq<Event>

    ghost predicate Valid()
      reads this
    {
      IsRun(history) && After(history) == world
    }

    constructor ()
      ensures Valid() && world == START && history == []
    {
      world := START;
      history := [];
    }

    method Do(e: Event)
      requires Valid() && Enabled(world, e)
      modifies this
      ensures Valid() && history == old(history) + [e] && world == Next(old(world), e)
    {
      history := history + [e];
      assert history[..|history| - 1] == old(history);
      world := Next(world, e);
    }

    /** Other requests take any number of steps. */
    method Await(r: nat)
      requires Valid()
      modifies this
      ensures Valid() && Continues(old(history), history, r) && SameRequest(old(world), world, r)
    {
      var steps: int := *;
      while steps > 0
        invariant Valid() && Continues(old(history), history, r)
      {
        steps := steps - 1;
        var e: Event := *;
        if Enabled(world, e) && !Owns(e, r) {
          Do(e);
        }
      }
      AwaitKeepsRequest(old(history), history, r);
    }

    /** The two tokens a request hands out. */
    method HandOut(r: nat) returns (access: Token, refresh: Token)
      requires Valid() && r in world.requests && world.requests[r].Granted?
      modifies this
      ensures Valid() && history == old(history) + [Mint(r)]
      ensures access in world.tokens && refresh in world.tokens && r in world.requests && world.requests[r] == Answered
      ensures var g := old(world.requests[r]);
              access.user == refresh.user == g.user && access.ver == refresh.ver == g.ver
              && FreshPair(access, refresh, world.now)
              && access !in old(world.tokens) && refresh !in old(world.tokens) && world.users == old(world.users)
    {
      RunIsSafe(history);
      access := AccessOf(world, world.requests[r].user, world.requests[r].ver);
      refresh := RefreshOf(world, world.requests[r].user, world.requests[r].ver);
      Do(Mint(r));
    }

    /** revoke_token's purge and insert, for a refresh token that is being rotated. */
    method ClaimToken(r: nat) returns (claimed: bool)
      requires Valid() && r in world.requests && world.requests[r].Loaded?
      modifies this
      ensures Valid() && old(history) <= history && r in world.requests
      ensures !Minted(old(history), history, r) && !Ended(old(history), history, r) && Purged(old(history), history)
      ensures var t := old(world.requests[r].token);
              && world.requests[r] == (if claimed then Granted(t.user, t.ver, Some(t)) else Replayed(t.user))
              && history != [] && history[|history| - 1] == Claim(r) && IsRun(history[..|history| - 1])
              && (claimed <==> t.jti !in After(history[..|history| - 1]).revoked)
    {
      Await(r);
      ghost var before := history;
      Do(Purge);
      Await(r);
      assert history[|before|] == Purge;
      claimed := world.requests[r].token.jti !in world.revoked;
      ghost var met := history;
      Do(Claim(r));
      assert history[..|history| - 1] == met;
    }

    /** _end_sessions_after_replay */
    method EndSessionsAfterReplay(r: nat)
      requires Valid() && r in world.requests && world.requests[r].Replayed?
      modifies this
      ensures Valid() && old(history) <= history && r in world.requests && world.requests[r] == Answered
      ensures !Minted(old(history), history, r) && Ended(old(history), history, r)
    {
      Await(r);
      Do(EndSessions(r));
      assert history[|history| - 1] == EndSessions(r);
    }

    /** load_session on the refresh path: what the database says of the token. */
    method LoadSession(r: nat, t: Token) returns (ghost n: nat, ghost seen: World)
      requires Valid() && r !in world.requests && t in world.tokens && t.kind == Refresh
      modifies this
      ensures Valid() && old(history) <= history
      ensures !Minted(old(history), history, r) && !Ended(old(history), history, r)
      ensures Witnessed(old(history), history, n, seen)
      ensures r in world.requests
      ensures world.requests[r] ==
              if t.user !in seen.users || !seen.users[t.user].active then Answered
              else if t.jti in seen.revoked then Replayed(t.user)
              else if t.ver != seen.users[t.user].version then Answered
              else Loaded(t)
    {
      hide IsRun, After;
      Await(r);
      n, seen := |history|, world;
      assert history[..n] == history;
      ghost var read := history;
      Do(LoadRefresh(r, t));
      assert history[..n] == read;
    }

    /** The rest of the request: claim and mint, or end the sessions. */
    method AnswerRefresh(r: nat, t: Token) returns (pair: Option<(Token, Token)>)
      requires Valid() && r in world.requests && world.requests[r] in {Answered, Replayed(t.user), Loaded(t)}
      modifies this
      ensures Valid() && old(history) <= history
      ensures r in world.requests && world.requests[r] == Answered
      ensures pair.Some? <==> Minted(old(history), history, r)
      ensures pair.Some? ==>
                var (access, refresh) := pair.value;
                && access in world.tokens && refresh in world.tokens
                && access.user == refresh.user == t.user && access.ver == refresh.ver == t.ver
                && FreshPair(access, refresh, world.now)
      ensures old(world.requests[r]) == Answered ==> pair.None? && !Ended(old(history), history, r)
      ensures old(world.requests[r]).Replayed? ==> pair.None? && Ended(old(history), history, r)
      ensures old(world.requests[r]).Loaded? ==> (pair.None? <==> Ended(old(history), history, r))
    {
      hide IsRun, After, Next, FreshPair;
      pair := None;
      if world.requests[r].Loaded? {
        var claimed := ClaimToken(r);
        if claimed {
          ghost var before := history;
          var access, refresh := HandOut(r);
          assert history[|before|] == Mint(r);
          return Some((access, refresh));
        }
      }
      if world.requests[r].Replayed? {
        EndSessionsAfterReplay(r);
      }
    }

    /** refresh_token_endpoint: a request with a genuine refresh token that decodes
        always runs to its answer, which is a pair for the token's user and
        version exactly when it minted one.  Without a pair, the user's sessions
        end exactly if the token was found revoked or the claim was lost. */
    method RefreshToken(r: nat, t: Token) returns (pair: Option<(Token, Token)>, ghost n: nat, ghost seen: World)
      requires Valid() && r !in world.requests
      modifies this
      ensures Valid() && old(history) <= history
      ensures pair.Some? ==>
                var (access, refresh) := pair.value;
                && access in world.tokens && refresh in world.tokens
                && access.user == refresh.user == t.user && access.ver == refresh.ver == t.ver
                && FreshPair(access, refresh, world.now)
      ensures r in world.requests <==> old(t in world.tokens && t.kind == Refresh && Decodes(world, t))
      ensures r in world.requests ==> world.requests[r] == Answered
      ensures pair.Some? <==> Minted(old(history), history, r)
      ensures Witnessed(old(history), history, n, seen)
      ensures r in world.requests ==>
                var ended := Ended(old(history), history, r);
                if t.user !in seen.users || !seen.users[t.user].active then pair.None? && !ended
                else if t.jti in seen.revoked then pair.None? && ended
                else if t.ver != seen.users[t.user].version then pair.None? && !ended
                else pair.None? <==> ended
    {
      hide IsRun, After, Next, FreshPair;
      pair := None;
      n, seen := |history|, world;
      assert history[..n] == history;
      if t !in world.tokens || t.kind != Refresh || !Decodes(world, t) {
        return;
      }
      ghost var start := history;
      n, seen := LoadSession(r, t);
      ghost var read := history;
      pair := AnswerRefresh(r, t);
      StretchesJoin(start, read, history, r);
      assert history[..n] == read[..n];
    }

    /** login, once the password has been checked. */
    method SignIn(r: nat, user: string, passwordOk: bool) returns (pair: Option<(Token, Token)>, ghost n: nat, ghost seen: World)
      requires Valid() && r !in world.requests
      modifies this
      ensures Valid() && old(history) <= history
      ensures pair.Some? <==> Minted(old(history), history, r)
      ensures pair.Some? ==> passwordOk && pair.value.0 in world.tokens && pair.value.1 in world.tokens
                             && pair.value.0.user == pair.value.1.user == user
                             && FreshPair(pair.value.0, pair.value.1, world.now)
      ensures Witnessed(old(history), history, n, seen)
      ensures pair.Some? <==> passwordOk && user in seen.users && seen.users[user].active
      ensures pair.Some? ==> pair.value.0.ver == pair.value.1.ver == seen.users[user].version
    {
      Await(r);
      n, seen := |history|, world;
      assert history[..n] == history;
      ghost var read := history;
      if user !in world.users || !passwordOk || !world.users[user].active {
        return None, n, seen;
      }
      Do(AuthProtocol.Login(r, user));
      Await(r);
      var access, refresh := HandOut(r);
      pair := Some((access, refresh));
      assert history[..n] == read;
    }

    /** revoke_token for a token that is being given up. */
    method GiveUp(r: nat, t: Token)
      requires Valid() && t in world.tokens
      modifies this
      ensures Valid() && old(history) <= history && t in world.tokens && !Accepted(world, t) && t.jti in world.revoked
      ensures Purged(old(history), history)
      ensures old(world).tokens <= world.tokens
    {
      Await(r);
      ghost var before := history;
      Do(Purge);
      Await(r);
      assert history[|before|] == Purge;
      Do(Revoke(t));
    }

    /** logout: afterwards neither the access token nor the caller's own refresh
        token is accepted; the access token is, if this is the second of its
        expiry and its revocation has been purged meanwhile. */
    method Logout(r: nat, access: Token, refresh: Option<Token>)
      requires Valid() && access in world.tokens
      modifies this
      ensures Valid() && old(history) <= history
      ensures Accepted(world, access) ==>
                refresh.Some? && InLastSecond(world, access) && PurgedSince(old(history), history, access)
      ensures refresh.Some? && refresh.value.kind == Refresh && refresh.value.user == access.user ==>
                !Accepted(world, refresh.value) || refresh.value !in old(world).tokens
    {
      GiveUp(r, access);
      ghost var given := history;
      if refresh.Some? {
        var t := refresh.value;
        var decodes := t in world.tokens && t.kind == Refresh && Decodes(world, t);
        ghost var decoded := world;
        Await(r);
        if decodes && LoadOutcome(world, t).Loaded? && t.user == access.user {
          GiveUp(r, t);
        }
      }
      assert history == given + history[|given|..];
      RevokedIsFinal(given, history[|given|..], access);
    }

    /** The UPDATE of a new password, with the user's next version. */
    method RaiseVersion(r: nat, user: string)
      requires Valid() && r !in world.requests && user in world.users
      modifies this
      ensures Valid() && old(history) <= history && old(world.tokens) <= world.tokens
      ensures r in world.requests && world.requests[r].Granted? && world.requests[r].user == user
      ensures user in world.users
      ensures old(world.users[user].version) < world.requests[r].ver <= world.users[user].version
    {
      hide IsRun, After;
      ghost var start := history;
      Await(r);
      assert history == start + history[|start|..];
      VersionsGrow(start, history[|start|..], user);
      Do(AuthProtocol.ChangePassword(r, user));
      hide Next;
      ghost var changed := history;
      Await(r);
      assert history == changed + history[|changed|..];
      VersionsGrow(changed, history[|changed|..], user);
    }

    /** change_password: every earlier session ends, the new pair is current. */
    method ChangePasswordOf(r: nat, user: string, allowed: bool) returns (pair: Option<(Token, Token)>)
      requires Valid() && r !in world.requests && user in world.users
      modifies this
      ensures Valid() && old(history) <= history
      ensures pair.Some? <==> allowed
      ensures pair.Some? ==> forall t :: t in old(world.tokens) && t.user == user ==> !Accepted(world, t)
      ensures pair.Some? ==>
                && user in world.users
                && pair.value.0 in world.tokens && pair.value.1 in world.tokens
                && pair.value.0.user == pair.value.1.user == user
                && FreshPair(pair.value.0, pair.value.1, world.now)
                && pair.value.0.ver == pair.value.1.ver > old(world.users[user].version)
    {
      RunIsBehind(history);
      hide IsRun, After, Next;
      ghost var start := history;
      Await(r);
      if !allowed {
        return None;
      }
      assert history == start + history[|start|..];
      VersionsGrow(start, history[|start|..], user);
      RaiseVersion(r, user);
      var access, refresh := HandOut(r);
      return Some((access, refresh));
    }
  }
}
