/**
 Authenticated requests (cli/sdk/sdk.go, cli/sdk/auth.go). doRequest refreshes the token, which
 authenticates, which sends requests through doRequest again; only the list of public paths ends it.
 */
module RequestAuth {
  import opened Common
  import opened Text

  const MASTER_KEY_BYTES := 32
  const TOKEN_REFRESH_MIN_INTERVAL := 30_000
  const CHALLENGE_PATH := "/v1/auth/challenge"
  const AUTH_PATH := "/v1/auth"
  const UNAUTHORIZED := 401

  /** A response body, as far as the two auth calls decode it. */
  datatype Body = Body(challengeValid: bool, success: bool, token: string)

  datatype HttpReply =
    | NotSent                          // the request could not be built
    | Failed                           // no response came back, or it could not be read
    | Response(status: int, body: Body)

  /**
   The outside at its n-th look: the reply to a request, whether the token expires soon (None if it
   cannot be read), and the clock.
   */
  datatype World = World(reply: nat -> HttpReply, expiringSoon: nat -> Option<bool>, clock: nat -> int)

  /** One HTTP exchange: the path, and the bearer token it carried ("" for none). */
  datatype Exchange = Exchange(path: string, bearer: string)

  function BodyOf(reply: HttpReply): Option<Body> {
    if !reply.Response? || reply.status < 200 || reply.status >= 300 then None else Some(reply.body)
  }

  /** A refresh that is not forced waits until 30 s after the last one that completed. */
  predicate RefreshDue(last: Option<int>, now: int) {
    last.None? || now - last.value >= TOKEN_REFRESH_MIN_INTERVAL
  }

  predicate IsUnauthenticatedAuthPath(path: string) {
    Trim(path) in {AUTH_PATH, CHALLENGE_PATH, "/v1/auth/request", "/v1/auth/request/status", "/v1/auth/account/request"}
  }

  lemma AuthPathsArePublic()
    ensures IsUnauthenticatedAuthPath(AUTH_PATH) && IsUnauthenticatedAuthPath(CHALLENGE_PATH)
  {
    assert Trimmed(AUTH_PATH) && Trimmed(CHALLENGE_PATH);
  }

  /** White space around a path does not matter; the answer to a pairing request and all else are protected. */
  lemma OtherPathsAreProtected(path: string)
    requires Trim(path) !in {"/v1/auth", "/v1/auth/challenge", "/v1/auth/request", "/v1/auth/request/status",
                             "/v1/auth/account/request"}
    ensures !IsUnauthenticatedAuthPath(path) && !IsUnauthenticatedAuthPath("/v1/auth/response")
  {
    assert Trimmed("/v1/auth/response");
  }

  function Paths(exchanges: seq<Exchange>): seq<string> {
    seq(|exchanges|, i requires 0 <= i < |exchanges| => exchanges[i].path)
  }

  /** The exchanges of an early refresh and those of the attempts make a trail. */
  lemma TrailFollows(start: seq<Exchange>, mid: seq<Exchange>, end: seq<Exchange>, path: string, trail: Trail)
    requires Paths(mid) == Paths(start) + trail.early.Sent() && Paths(end) == Paths(mid) + trail.attempts.Sent(path)
    ensures Paths(end) == Paths(start) + trail.Sent(path) && |mid| == |start| + |trail.early.Sent()|
    ensures |end| - |start| <= if trail.Public() then 1 else 6
  {
    OneEach(start, mid, trail.early.Sent());
    OneEach(mid, end, trail.attempts.Sent(path));
    Assoc(Paths(start), trail.early.Sent(), trail.attempts.Sent(path));
    TrailBounds(trail, path);
  }

  lemma OneEach(before: seq<Exchange>, after: seq<Exchange>, sent: seq<string>)
    requires Paths(after) == Paths(before) + sent
    ensures |after| == |before| + |sent|
  {
    assert |Paths(after)| == |after| && |Paths(before)| == |before|;
  }

  // ----- The exchanges of a request -----

  /** How far a token refresh got: nothing sent, no further than the challenge, or answered as well. */
  datatype Refresh = Unsent | Challenged | Answered {
    function Sent(): seq<string> {
      match this
      case Unsent => []
      case Challenged => [CHALLENGE_PATH]
      case Answered => [CHALLENGE_PATH, AUTH_PATH]
    }
  }

  /**
   The request itself: not sent, sent, or sent and refused with a 401, so that a refresh came next.
   Only after a refresh without an error is it sent again.
   */
  datatype Attempts = NotAttempted | Once | ThenRefreshed(refresh: Refresh, refreshed: bool, again: bool) {
    function Sent(path: string): seq<string> {
      match this
      case NotAttempted => []
      case Once => [path]
      case ThenRefreshed(refresh, _, again) => [path] + refresh.Sent() + if again then [path] else []
    }

    /** A refresh that broke off at the challenge has failed. */
    predicate Possible() {
      ThenRefreshed? ==> (again ==> refreshed) && (refreshed ==> !refresh.Challenged?)
    }
  }

  /** A whole request: the refresh that comes before it, and its attempts. */
  datatype Trail = Trail(early: Refresh, attempts: Attempts) {
    function Sent(path: string): seq<string> {
      early.Sent() + attempts.Sent(path)
    }

    predicate Public() {
      early.Unsent? && !attempts.ThenRefreshed?
    }
  }

  lemma RefreshBounds(refresh: Refresh, path: string)
    ensures |refresh.Sent()| <= 2 && forall p <- refresh.Sent() :: p in {CHALLENGE_PATH, AUTH_PATH}
    ensures !IsUnauthenticatedAuthPath(path) ==> path !in refresh.Sent()
  {
    AuthPathsArePublic();
  }

  lemma AttemptsBounds(attempts: Attempts, path: string)
    ensures |attempts.Sent(path)| <= if attempts.ThenRefreshed? then 4 else 1
    ensures !IsUnauthenticatedAuthPath(path) ==> multiset(attempts.Sent(path))[path] <= 2
  {
    if attempts.ThenRefreshed? {
      RefreshBounds(attempts.refresh, path);
    }
  }

  /** At most six exchanges for a protected path, at most two of them to that path; at most one for a public one. */
  lemma TrailBounds(trail: Trail, path: string)
    ensures |trail.Sent(path)| <= if trail.Public() then 1 else 6
    ensures !IsUnauthenticatedAuthPath(path) ==> multiset(trail.Sent(path))[path] <= 2
  {
    RefreshBounds(trail.early, path);
    AttemptsBounds(trail.attempts, path);
  }

  lemma RefreshedSends(
    start: seq<string>, first: seq<string>, end: seq<string>, path: string, refresh: Refresh, ok: bool, again: bool)
    requires first == start + [path] && end == first + refresh.Sent() + if again then [path] else []
    ensures end == start + ThenRefreshed(refresh, ok, again).Sent(path)
  {
    assert start + [path] + refresh.Sent() + (if again then [path] else [])
      == start + ([path] + refresh.Sent() + if again then [path] else []);
  }

  lemma Assoc<T>(a: seq<T>, b: seq<T>, c: seq<T>)
    ensures a + b + c == a + (b + c)
  {
  }

  // ----- Refreshes over time -----

  /** One attempt to refresh the token: whether it was forced, the looks it took its times at, and its success. */
  datatype Try = Try(forced: bool, begun: nat, ended: nat, completed: bool)

  function LastCompleted(tries: seq<Try>): Option<nat> {
    if tries == [] then None
    else if tries[|tries| - 1].completed then Some(tries[|tries| - 1].ended)
    else LastCompleted(tries[..|tries| - 1])
  }

  function TimeOf(world: World, look: Option<nat>): Option<int> {
    if look.Some? then Some(world.clock(look.value)) else None
  }

  /** The attempts came one after the other before this look, and no unforced one before it was due. */
  ghost predicate Chronicle(world: World, tries: seq<Try>, now: nat) {
    tries != [] ==>
      var before, t := tries[..|tries| - 1], tries[|tries| - 1];
      && Chronicle(world, before, t.begun) && t.begun < t.ended < now
      && (!t.forced ==> RefreshDue(TimeOf(world, LastCompleted(before)), world.clock(t.begun)))
  }

  lemma ChronicleGrows(world: World, tries: seq<Try>, t: Try, now: nat)
    requires Chronicle(world, tries, t.begun) && t.begun < t.ended < now
    requires !t.forced ==> RefreshDue(TimeOf(world, LastCompleted(tries)), world.clock(t.begun))
    ensures Chronicle(world, tries + [t], now)
    ensures LastCompleted(tries + [t]) == if t.completed then Some(t.ended) else LastCompleted(tries)
  {
    assert (tries + [t])[..|tries|] == tries;
  }

  lemma {:induction false} CompletedBefore(world: World, tries: seq<Try>, now: nat, i: nat)
    requires Chronicle(world, tries, now) && i < |tries| && tries[i].completed
    ensures LastCompleted(tries).Some? && tries[i].ended <= LastCompleted(tries).value < now
  {
    if i < |tries| - 1 {
      CompletedBefore(world, tries[..|tries| - 1], tries[|tries| - 1].begun, i);
    }
  }

  /**
   Over any sequence of requests, an unforced refresh begins at least 30 s after every one before it
   that completed.
   */
  lemma {:induction false} UnforcedRefreshesAreSpaced(world: World, tries: seq<Try>, now: nat, i: nat, j: nat)
    requires Chronicle(world, tries, now)
    requires forall m: nat, n: nat | m <= n :: world.clock(m) <= world.clock(n)
    requires i < j < |tries| && tries[i].completed && !tries[j].forced
    ensures world.clock(tries[j].begun) - world.clock(tries[i].ended) >= 30_000
  {
    var before, t := tries[..|tries| - 1], tries[|tries| - 1];
    if j < |tries| - 1 {
      UnforcedRefreshesAreSpaced(world, before, t.begun, i, j);
    } else {
      CompletedBefore(world, before, t.begun, i);
    }
  }

  ghost predicate SentWith(exchanges: seq<Exchange>, i: nat, path: string, token: string) {
    i < |exchanges| && exchanges[i] == Exchange(path, Trim(token))
  }

  class Client {
    const world: World
    const serverURL: string
    const masterSecret: seq<bv8>
    var token: string
    var lastTokenRefreshAt: Option<int>
    /** Looks at the outside so far. */
    var ticks: nat
    /** Every exchange so far, and every attempt to refresh the token. */
    var exchanges: seq<Exchange>
    ghost var tries: seq<Try>

    /** The refresh time is that of the last completed attempt, and unforced attempts are spaced from it. */
    ghost predicate Valid()
      reads this
    {
      lastTokenRefreshAt == TimeOf(world, LastCompleted(tries)) && Chronicle(world, tries, ticks)
    }

    constructor (world: World, serverURL: string, masterSecret: seq<bv8>, token: string)
      ensures Valid() && this.world == world && this.serverURL == serverURL && this.masterSecret == masterSecret
      ensures this.token == token && lastTokenRefreshAt == None && exchanges == [] && tries == [] && ticks == 0
    {
      this.world, this.serverURL, this.masterSecret, this.token := world, serverURL, masterSecret, token;
      lastTokenRefreshAt, ticks, exchanges, tries := None, 0, [], [];
    }

    method DoOnce(path: string, bearer: string) returns (reply: HttpReply)
      requires Valid()
      modifies this`ticks, this`exchanges
      ensures Valid()
      ensures reply == world.reply(old(ticks)) && ticks == old(ticks) + 1
      ensures exchanges == old(exchanges) + if reply.NotSent? then [] else [Exchange(path, bearer)]
      ensures Paths(exchanges) == old(Paths(exchanges)) + if reply.NotSent? then [] else [path]
      ensures !reply.NotSent? && bearer == Trim(token) ==> LastReply(path, reply)
    {
      reply := world.reply(ticks);
      ticks := ticks + 1;
      if !reply.NotSent? {
        exchanges := exchanges + [Exchange(path, bearer)];
      }
    }

    // ----- What the world grants from a given look on -----

    /** The token that a challenge and its answer, sent from this look on, bring. */
    ghost function Granted(t: nat): Option<string> {
      var challenge, answer := BodyOf(world.reply(t)), BodyOf(world.reply(t + 1));
      if |masterSecret| == 32 && serverURL != ""
        && challenge.Some? && challenge.value.challengeValid
        && answer.Some? && answer.value.success && answer.value.token != ""
      then Some(answer.value.token) else None
    }

    /** A refresh from this look on is attempted: the token is known, can be renewed, and is forced or due to be. */
    ghost predicate Due(force: bool, tok: string, last: Option<int>, t: nat) {
      && Trim(tok) != "" && |masterSecret| > 0 && world.expiringSoon(t).Some?
      && (force || (world.expiringSoon(t) == Some(true) && (last.None? || world.clock(t + 1) - last.value >= 30_000)))
    }

    /** It has no error: with nothing to renew or nothing due, or with a token granted that is not blank. */
    ghost predicate Succeeds(force: bool, tok: string, last: Option<int>, t: nat) {
      && Trim(tok) != ""
      && (|masterSecret| > 0 ==>
        && world.expiringSoon(t).Some?
        && (Due(force, tok, last, t) ==> Granted(t + 2).Some? && Trim(Granted(t + 2).value) != ""))
    }

    ghost function TokenAfter(force: bool, tok: string, last: Option<int>, t: nat): string {
      if Due(force, tok, last, t) then Granted(t + 2).GetOr(tok) else tok
    }

    lemma WhenDue(force: bool, tok: string, last: Option<int>, t: nat)
      ensures if Due(force, tok, last, t) then
          && TokenAfter(force, tok, last, t) == Granted(t + 2).GetOr(tok)
          && (Succeeds(force, tok, last, t) <==> Granted(t + 2).Some? && Trim(Granted(t + 2).value) != "")
        else TokenAfter(force, tok, last, t) == tok
    {
    }

    /** The last exchange was to this path, with the present token, and this was its reply. */
    ghost predicate LastReply(path: string, reply: HttpReply)
      reads this
    {
      && exchanges != [] && exchanges[|exchanges| - 1] == Exchange(path, Trim(token))
      && ticks > 0 && reply == world.reply(ticks - 1)
    }

    /** It succeeded, with this body. */
    ghost predicate LastAnswered(path: string, body: Body)
      reads this
    {
      ticks > 0 && LastReply(path, world.reply(ticks - 1)) && BodyOf(world.reply(ticks - 1)) == Some(body)
    }

    /**
     How a request that is first sent at this look comes out: it is attempted unless no server is set or
     it cannot be built, a 401 on a protected path makes it refresh the token, and if that succeeds send
     it once more; and the result is the body of the last reply, if that has a status from 200 to 299.
     */
    ghost predicate Settled(path: string, attempts: Attempts, first: nat, resp: Option<Body>)
      reads this
    {
      var reply := world.reply(first);
      && (attempts.NotAttempted? <==> serverURL == "" || reply.NotSent?)
      && (attempts.ThenRefreshed? <==>
        serverURL != "" && reply.Response? && reply.status == 401 && !IsUnauthenticatedAuthPath(path))
      && (attempts.NotAttempted? ==> resp == None && ticks == first + if serverURL == "" then 0 else 1)
      && (attempts.Once? ==> ticks == first + 1 && resp == IfSuccessful(reply) && LastReply(path, reply))
      && (attempts.ThenRefreshed? ==> Retried(path, attempts.refreshed, attempts.again, first + 1, resp))
    }

    /** After a refresh since this look that succeeded, the last look was at the reply to the request sent again. */
    ghost predicate Retried(path: string, refreshed: bool, again: bool, since: nat, resp: Option<Body>)
      reads this
    {
      if refreshed then
        && since < ticks && resp == IfSuccessful(world.reply(ticks - 1))
        && (again <==> !world.reply(ticks - 1).NotSent?)
        && (again ==> LastReply(path, world.reply(ticks - 1)))
      else resp == None && !again
    }

    ghost function IfSuccessful(reply: HttpReply): Option<Body> {
      match reply
      case Response(status, body) => if 200 <= status <= 299 then Some(body) else None
      case _ => None
    }

    /** A protected request first tries a refresh exactly if one is due, and a public one never does. */
    ghost predicate TriedEarly(
      path: string, first: nat, start: nat, tok: string, last: Option<int>, before: seq<Try>)
      reads this
    {
      if IsUnauthenticatedAuthPath(path) then first == start && tries == before
      else before <= tries && (Due(false, tok, last, start) <==> before < tries && !tries[|before|].forced)
    }

    /** The token that the request is first sent with. */
    ghost function FirstToken(path: string, tok: string, last: Option<int>, t: nat): string {
      if IsUnauthenticatedAuthPath(path) then tok else TokenAfter(false, tok, last, t)
    }

    /**
     Every call ends, and its exchanges follow a trail. A successful reply answers the last
     exchange, which was to this path and carried the token that the client holds now.
     */
    method DoRequest(path: string) returns (resp: Option<Body>, ghost trail: Trail, ghost first: nat)
      requires Valid()
      modifies this`token, this`lastTokenRefreshAt, this`ticks, this`exchanges, this`tries
      ensures Valid() && old(ticks) <= ticks
      ensures old(exchanges) <= exchanges
      ensures Paths(exchanges) == old(Paths(exchanges)) + trail.Sent(path) && trail.attempts.Possible()
      ensures IsUnauthenticatedAuthPath(path) ==>
        trail.Public() && token == old(token) && tries == old(tries)
      ensures |exchanges| - |old(exchanges)| <= if IsUnauthenticatedAuthPath(path) then 1 else 6
      ensures resp.Some? ==> !trail.attempts.NotAttempted? && LastAnswered(path, resp.value)
      ensures first <= ticks && Settled(path, trail.attempts, first, resp)
      ensures !trail.attempts.NotAttempted? ==>
        SentWith(exchanges, |old(exchanges)| + |trail.early.Sent()|, path,
          FirstToken(path, old(token), old(lastTokenRefreshAt), old(ticks)))
      ensures TriedEarly(path, first, old(ticks), old(token), old(lastTokenRefreshAt), old(tries))
      decreases if IsUnauthenticatedAuthPath(path) then 0 else 7, 1
    {
      ghost var early := RefreshEarly(path);
      first := ticks;
      ghost var before, attempts := exchanges, NotAttempted;
      resp, attempts := Attempt(path);
      trail := Trail(early, attempts);
      TrailFollows(old(exchanges), before, exchanges, path, trail);
    }

    /** The best-effort refresh before a protected request; its outcome does not matter. */
    method RefreshEarly(path: string) returns (ghost early: Refresh)
      requires Valid()
      modifies this`token, this`lastTokenRefreshAt, this`ticks, this`exchanges, this`tries
      ensures Valid() && old(ticks) <= ticks
      ensures old(exchanges) <= exchanges
      ensures Paths(exchanges) == old(Paths(exchanges)) + early.Sent()
      ensures token == FirstToken(path, old(token), old(lastTokenRefreshAt), old(ticks))
      ensures if IsUnauthenticatedAuthPath(path)
        then early.Unsent? && tries == old(tries) && ticks == old(ticks) && exchanges == old(exchanges)
          && lastTokenRefreshAt == old(lastTokenRefreshAt)
        else if Due(false, old(token), old(lastTokenRefreshAt), old(ticks))
          then |tries| == |old(tries)| + 1 && old(tries) <= tries && !tries[|old(tries)|].forced
          else tries == old(tries)
      decreases if IsUnauthenticatedAuthPath(path) then 0 else 7, 0
    {
      early := Unsent;
      if !IsUnauthenticatedAuthPath(path) {
        var _, refresh := RefreshTokenIfNeeded(false);
        early := refresh;
      }
    }

    /** doRequest once the token is as fresh as it will be: send, and on a 401 force a refresh and send again. */
    method Attempt(path: string) returns (resp: Option<Body>, ghost attempts: Attempts)
      requires Valid()
      modifies this`token, this`lastTokenRefreshAt, this`ticks, this`exchanges, this`tries
      ensures Valid() && old(ticks) <= ticks
      ensures old(exchanges) <= exchanges
      ensures Paths(exchanges) == old(Paths(exchanges)) + attempts.Sent(path)
      ensures attempts.Possible()
      ensures IsUnauthenticatedAuthPath(path) ==>
        !attempts.ThenRefreshed? && token == old(token) && tries == old(tries)
      ensures Settled(path, attempts, old(ticks), resp)
      ensures attempts.ThenRefreshed? ==>
        (attempts.refreshed <==> Succeeds(true, old(token), old(lastTokenRefreshAt), old(ticks) + 1))
      ensures old(tries) <= tries && (old(tries) < tries ==> tries[|old(tries)|].forced)
      ensures !attempts.NotAttempted? ==> SentWith(exchanges, |old(exchanges)|, path, old(token))
      decreases if IsUnauthenticatedAuthPath(path) then 0 else 7, 0
    {
      if serverURL == "" {
        return None, NotAttempted;
      }
      var reply := DoOnce(path, Trim(token));
      if reply.NotSent? {
        return None, NotAttempted;
      }
      if !reply.Response? || reply.status != UNAUTHORIZED || IsUnauthenticatedAuthPath(path) {
        return BodyOf(reply), Once;
      }
      ghost var before, refreshed, refresh, again := exchanges, false, Unsent, false;
      reply, refreshed, refresh, again := Retry(path, reply);
      RefreshedSends(old(Paths(exchanges)), Paths(before), Paths(exchanges), path, refresh, refreshed, again);
      return BodyOf(reply), ThenRefreshed(refresh, refreshed, again);
    }

    /** After a 401: force a refresh, and only if that succeeds send the request again. */
    method Retry(path: string, unauthorized: HttpReply)
      returns (reply: HttpReply, ghost refreshed: bool, ghost refresh: Refresh, ghost again: bool)
      requires Valid() && unauthorized.Response? && unauthorized.status == UNAUTHORIZED
      modifies this`token, this`lastTokenRefreshAt, this`ticks, this`exchanges, this`tries
      ensures Valid() && old(ticks) <= ticks
      ensures Paths(exchanges) == old(Paths(exchanges)) + refresh.Sent() + if again then [path] else []
      ensures (again ==> refreshed) && (refreshed ==> !refresh.Challenged?)
      ensures refreshed <==> Succeeds(true, old(token), old(lastTokenRefreshAt), old(ticks))
      ensures Retried(path, refreshed, again, old(ticks), BodyOf(reply))
      ensures old(tries) <= tries && (old(tries) < tries ==> tries[|old(tries)|].forced)
      ensures old(exchanges) <= exchanges
      decreases 5
    {
      var ok;
      ok, refresh := RefreshTokenIfNeeded(true);
      if !ok {
        return unauthorized, false, refresh, false;
      }
      reply := DoOnce(path, Trim(token));
      return reply, true, refresh, !reply.NotSent?;
    }

    /** Some reply has come. */
    ghost predicate Heard()
      reads this
    {
      exists n: nat | n < ticks :: world.reply(n).Response?
    }

    /** True when there is no error, which includes the cases where nothing had to be done. */
    method RefreshTokenIfNeeded(force: bool) returns (ok: bool, ghost refresh: Refresh)
      requires Valid()
      modifies this`token, this`lastTokenRefreshAt, this`ticks, this`exchanges, this`tries
      ensures Valid() && old(ticks) <= ticks
      ensures old(exchanges) <= exchanges
      ensures Paths(exchanges) == old(Paths(exchanges)) + refresh.Sent()
      ensures ok <==> Succeeds(force, old(token), old(lastTokenRefreshAt), old(ticks))
      ensures token == TokenAfter(force, old(token), old(lastTokenRefreshAt), old(ticks))
      ensures ok ==> !refresh.Challenged? && Trim(token) != ""
      ensures if Due(force, old(token), old(lastTokenRefreshAt), old(ticks))
        then Tried(ok, refresh, force, old(ticks) + 1, old(tries), old(lastTokenRefreshAt))
          && (ok || token != old(token) ==> refresh.Answered? && Heard())
        else refresh.Unsent? && tries == old(tries) && lastTokenRefreshAt == old(lastTokenRefreshAt)
      decreases 4
    {
      ghost var start := ticks;
      var settled := CheckToken(force);
      if settled.Some? {
        return settled.value, Unsent;
      }
      ok, refresh := Renew(force, start);
    }

    /** The guards of refreshTokenIfNeeded: what it comes back with, or None if it goes on. */
    method CheckToken(force: bool) returns (settled: Option<bool>)
      requires Valid()
      modifies this`ticks
      ensures Valid() && old(ticks) <= ticks
      ensures settled.None? <==> Due(force, token, lastTokenRefreshAt, old(ticks))
      ensures settled.None? ==> ticks == old(ticks) + 2
      ensures settled.Some? ==> settled.value == Succeeds(force, token, lastTokenRefreshAt, old(ticks))
      ensures settled.Some? ==> TokenAfter(force, token, lastTokenRefreshAt, old(ticks)) == token
      ensures settled == Some(true) ==> Trim(token) != ""
      ensures Chronicle(world, tries, old(ticks) + 1)
    {
      if Trim(token) == "" { return Some(false); }
      if |masterSecret| == 0 { return Some(true); }
      var expiring := world.expiringSoon(ticks);
      ticks := ticks + 1;
      if expiring.None? { return Some(false); }
      if !force && !expiring.value { return Some(true); }
      var now := world.clock(ticks);
      ticks := ticks + 1;
      if !force && lastTokenRefreshAt.Some? && now - lastTokenRefreshAt.value < TOKEN_REFRESH_MIN_INTERVAL {
        return Some(true);
      }
      return None;
    }

    /** An attempt has just ended: it is logged, and on success its time is the refresh time. */
    ghost predicate Tried(
      ok: bool, refresh: Refresh, forced: bool, begun: nat, before: seq<Try>, last: Option<int>)
      reads this
    {
      && 0 < ticks && tries == before + [Try(forced, begun, ticks - 1, ok)]
      && lastTokenRefreshAt == (if ok then Some(world.clock(ticks - 1)) else last)
      && (ok ==> refresh.Answered?)
    }

    /** The end of refreshTokenIfNeeded, when one is due: authenticate again, and note the token and the time. */
    method Renew(force: bool, ghost start: nat) returns (ok: bool, ghost refresh: Refresh)
      requires Valid() && Chronicle(world, tries, start + 1) && ticks == start + 2
      requires Due(force, token, lastTokenRefreshAt, start)
      modifies this`token, this`lastTokenRefreshAt, this`ticks, this`exchanges, this`tries
      ensures Valid() && old(ticks) <= ticks
      ensures old(exchanges) <= exchanges
      ensures Paths(exchanges) == old(Paths(exchanges)) + refresh.Sent()
      ensures ok <==> Succeeds(force, old(token), old(lastTokenRefreshAt), start)
      ensures token == TokenAfter(force, old(token), old(lastTokenRefreshAt), start)
      ensures ok ==> Trim(token) != ""
      ensures ok || token != old(token) ==> refresh.Answered? && Heard()
      ensures Tried(ok, refresh, force, start + 1, old(tries), old(lastTokenRefreshAt))
      decreases 3
    {
      WhenDue(force, token, lastTokenRefreshAt, start);
      var newToken;
      newToken, refresh := AuthWithMasterKey();
      ok := newToken.Some? && Trim(newToken.value) != "";
      if ok {
        token := newToken.value;
      }
      NoteAttempt(force, start + 1, ok);
    }

    /** The attempt ends: only if it succeeded is its time remembered. The new token is stored already. */
    method NoteAttempt(ghost forced: bool, ghost begun: nat, ok: bool)
      requires Valid() && Chronicle(world, tries, begun) && begun < ticks
      requires !forced ==> RefreshDue(lastTokenRefreshAt, world.clock(begun))
      modifies this`lastTokenRefreshAt, this`ticks, this`tries
      ensures Valid() && ticks == old(ticks) + 1
      ensures tries == old(tries) + [Try(forced, begun, old(ticks), ok)]
      ensures lastTokenRefreshAt == if ok then Some(world.clock(old(ticks))) else old(lastTokenRefreshAt)
    {
      ChronicleGrows(world, tries, Try(forced, begun, ticks, ok), ticks + 1);
      tries := tries + [Try(forced, begun, ticks, ok)];
      if ok {
        lastTokenRefreshAt := Some(world.clock(ticks));
      }
      ticks := ticks + 1;
    }

    method AuthWithMasterKey() returns (newToken: Option<string>, ghost refresh: Refresh)
      requires Valid()
      modifies this`token, this`lastTokenRefreshAt, this`ticks, this`exchanges, this`tries
      ensures Valid() && old(ticks) <= ticks
      ensures old(exchanges) <= exchanges
      ensures Paths(exchanges) == old(Paths(exchanges)) + refresh.Sent()
      ensures tries == old(tries) && lastTokenRefreshAt == old(lastTokenRefreshAt)
      ensures newToken == Granted(old(ticks)) && token == newToken.GetOr(old(token))
      ensures newToken.Some? ==> newToken.value != "" && refresh.Answered?
      ensures newToken.Some? ==> Heard()
      decreases 2
    {
      AuthPathsArePublic();
      if |masterSecret| != MASTER_KEY_BYTES { return None, Unsent; }
      var challenged;
      challenged, refresh := GetAuthChallenge();
      if !challenged { return None, refresh; }
      var body, trail, _ := DoRequest(AUTH_PATH);
      refresh := if trail.attempts.Once? then Answered else Challenged;
      if body.None? || !body.value.success || body.value.token == "" { return None, refresh; }
      token := body.value.token;
      return Some(token), refresh;
    }

    method GetAuthChallenge() returns (ok: bool, ghost refresh: Refresh)
      requires Valid()
      modifies this`token, this`lastTokenRefreshAt, this`ticks, this`exchanges, this`tries
      ensures Valid() && old(ticks) <= ticks
      ensures old(exchanges) <= exchanges
      ensures Paths(exchanges) == old(Paths(exchanges)) + refresh.Sent()
      ensures ticks == old(ticks) + if serverURL == "" then 0 else 1
      ensures ok <==>
        serverURL != "" && BodyOf(world.reply(old(ticks))).Some? && BodyOf(world.reply(old(ticks))).value.challengeValid
      ensures refresh == if serverURL == "" || world.reply(old(ticks)).NotSent? then Unsent else Challenged
      ensures token == old(token) && tries == old(tries)
      decreases 1
    {
      AuthPathsArePublic();
      var body, trail, _ := DoRequest(CHALLENGE_PATH);
      return body.Some? && body.value.challengeValid, if trail.attempts.Once? then Challenged else Unsent;
    }
  }

  /**
   Attempts that fail are not spaced: while no reply comes, every unforced request for a token that
   expires soon tries again, here twice within the same millisecond.
   */
  method FailedRefreshesAreNotSpaced() returns (c: Client)
    ensures c.Valid() && |c.tries| == 2
    ensures forall t <- c.tries :: !t.forced && !t.completed && c.world.clock(t.begun) == 0
  {
    var world := World(_ => Failed, _ => Some(true), _ => 0);
    c := new Client(world, "https://host", seq(MASTER_KEY_BYTES, _ => 0 as bv8), "token");
    assert Trimmed("token") && Trim("token") == "token";
    assert c.Due(false, c.token, c.lastTokenRefreshAt, c.ticks);
    var _, _ := c.RefreshTokenIfNeeded(false);
    assert c.token == "token" && c.Due(false, c.token, c.lastTokenRefreshAt, c.ticks);
    var _, _ := c.RefreshTokenIfNeeded(false);
  }
}
