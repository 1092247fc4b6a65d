/** The shared HTTP client of the application (`src/api/axiosConfig.js`): a request
    interceptor that attaches the stored access token, and a response interceptor
    that, once per request, refreshes an expired token and resends the request.

    One request's lifecycle is modelled as a pure function. The API server and the
    refresh endpoint are parameters, so every property below holds whatever they answer. */
module Gateway {
  import opened Optional
  import opened Session

  /** An outgoing request: its path, its `Authorization` header and the `_retry` mark
      the response interceptor sets on it. */
  datatype Request = Request(path: string, authorization: Option<string>, retried: bool)

  /** What came back for a request: a status with the body's `expired` flag, or no
      response at all (a network error). */
  datatype Reply = Answered(status: int, expired: bool) | NoResponse

  /** axios resolves only for 2xx statuses; everything else reaches the error handler. */
  predicate IsSuccess(r: Reply) {
    r.Answered? && 200 <= r.status < 300
  }

  /** The answer of `POST /auth/refresh-token`. */
  datatype RefreshReply = Refreshed(accessToken: string, refreshToken: string) | RefreshFailed

  /** Why the caller's promise rejects: the server's error passed through unchanged, no
      refresh token stored, or the refresh call failed. */
  datatype Failure = PassedThrough(reply: Reply) | NoRefreshToken | RefreshRejected

  datatype Result = Resolved(reply: Reply) | Rejected(failure: Failure)

  /** The network calls a lifecycle makes, in order. */
  datatype Event = Sent(request: Request) | RefreshCall(token: string)

  /** The end of one request's lifecycle: what the caller sees, the storage afterwards,
      the calls made, and whether the page was sent to `/login`. */
  datatype Lifecycle = Lifecycle(result: Result, storage: Storage, trace: seq<Event>, toLogin: bool)

  /** The API server: its answer to the `n`-th send of this request. */
  type Server = (nat, Request) -> Reply

  /** The refresh endpoint, called with the stored refresh token. */
  type RefreshEndpoint = string -> RefreshReply

  const LoginPath: string := "/login"

  function Bearer(token: string): string {
    "Bearer " + token
  }

  function Sends(trace: seq<Event>): nat {
    if |trace| == 0 then 0 else (if trace[0].Sent? then 1 else 0) + Sends(trace[1..])
  }

  function Refreshes(trace: seq<Event>): nat {
    if |trace| == 0 then 0 else (if trace[0].RefreshCall? then 1 else 0) + Refreshes(trace[1..])
  }

  lemma {:induction false} CountsAppend(a: seq<Event>, b: seq<Event>)
    ensures Sends(a + b) == Sends(a) + Sends(b)
    ensures Refreshes(a + b) == Refreshes(a) + Refreshes(b)
  {
    if |a| > 0 {
      CountsAppend(a[1..], b);
      assert (a + b)[1..] == a[1..] + b;
    } else {
      assert a + b == b;
    }
  }

  /** The request interceptor: with a stored access token the request carries
      `Authorization: Bearer <token>`; without one it is sent exactly as it was. */
  function AttachToken(req: Request, st: Storage): (r: Request)
    ensures Holds(st, AccessToken) ==> r == req.(authorization := Some(Bearer(st[AccessToken])))
    ensures !Holds(st, AccessToken) ==> r == req
  {
    if Holds(st, AccessToken) then req.(authorization := Some(Bearer(st[AccessToken]))) else req
  }

  /** The response interceptor's test: a 401 whose body says the token expired, on a
      request not yet retried. */
  predicate ShouldRefresh(reply: Reply, req: Request) {
    reply.Answered? && reply.status == 401 && reply.expired && !req.retried
  }

  /** Sends `req` through the interceptors and follows the response interceptor until
      the caller's promise settles. `n` counts earlier sends of the same request. The
      refresh call goes to `refresh` directly, never back through `Dispatch`.

      Whatever the server does, a request is sent at most twice and refreshed at most
      once; a request already marked as retried is sent once and never refreshed. */
  function Dispatch(req: Request, st: Storage, server: Server, refresh: RefreshEndpoint, n: nat): (l: Lifecycle)
    ensures |l.trace| >= 1 && l.trace[0] == Sent(AttachToken(req, st))
    ensures Sends(l.trace) <= (if req.retried then 1 else 2)
    ensures Refreshes(l.trace) <= (if req.retried then 0 else 1)
    decreases if req.retried then 0 else 1
  {
    var sent := AttachToken(req, st);
    var reply := server(n, sent);
    if IsSuccess(reply) then
      Lifecycle(Resolved(reply), st, [Sent(sent)], false)
    else if ShouldRefresh(reply, sent) then
      var marked := sent.(retried := true);
      if !Holds(st, RefreshToken) then
        Lifecycle(Rejected(NoRefreshToken), Clear(st), [Sent(sent)], true)
      else
        var token := st[RefreshToken];
        CountsAppend([Sent(sent)], [RefreshCall(token)]);
        assert [Sent(sent)] + [RefreshCall(token)] == [Sent(sent), RefreshCall(token)];
        match refresh(token)
        case RefreshFailed =>
          Lifecycle(Rejected(RefreshRejected), Clear(st), [Sent(sent), RefreshCall(token)], true)
        case Refreshed(access, newRefresh) =>
          var st' := SetItem(SetItem(st, AccessToken, access), RefreshToken, newRefresh);
          var again := Dispatch(marked.(authorization := Some(Bearer(access))), st', server, refresh, n + 1);
          var prefix := [Sent(sent), RefreshCall(token)];
          CountsAppend(prefix, again.trace);
          again.(trace := prefix + again.trace)
    else
      Lifecycle(Rejected(PassedThrough(reply)), st, [Sent(sent)], false)
  }

  /** The outcome a caller gets for one answered send when no refresh happens. */
  function Settle(reply: Reply): Result {
    if IsSuccess(reply) then Resolved(reply) else Rejected(PassedThrough(reply))
  }

  /** A request already marked `_retry` is sent once and its answer, even a 401 with
      `expired`, reaches the caller unchanged: no refresh, no storage change, no redirect. */
  lemma RetriedRequestIsNotRefreshed(req: Request, st: Storage, server: Server, refresh: RefreshEndpoint, n: nat)
    requires req.retried
    ensures var l := Dispatch(req, st, server, refresh, n);
      && l.trace == [Sent(AttachToken(req, st))]
      && l.result == Settle(server(n, AttachToken(req, st)))
      && l.storage == st && !l.toLogin
  {
  }

  /** A first send answered with a 2xx status resolves with that reply after one send:
      no refresh, no storage change, no redirect. */
  lemma SuccessResolvesUntouched(req: Request, st: Storage, server: Server, refresh: RefreshEndpoint, n: nat)
    requires IsSuccess(server(n, AttachToken(req, st)))
    ensures var l := Dispatch(req, st, server, refresh, n);
      && l.result == Resolved(server(n, AttachToken(req, st)))
      && l.trace == [Sent(AttachToken(req, st))]
      && l.storage == st && !l.toLogin
  {
  }

  /** Any failure other than a first-time 401 with `expired` is passed to the caller
      unmodified, with storage untouched. */
  lemma OtherErrorsPassThrough(req: Request, st: Storage, server: Server, refresh: RefreshEndpoint, n: nat)
    requires var sent := AttachToken(req, st); !IsSuccess(server(n, sent)) && !ShouldRefresh(server(n, sent), sent)
    ensures var l := Dispatch(req, st, server, refresh, n);
      && l.result == Rejected(PassedThrough(server(n, AttachToken(req, st))))
      && l.storage == st && !l.toLogin && Refreshes(l.trace) == 0
  {
  }

  /** A refresh is attempted only for a 401 flagged `expired` on a request not yet
      retried, and then with the stored refresh token. */
  lemma RefreshOnlyWhenExpired(req: Request, st: Storage, server: Server, refresh: RefreshEndpoint, n: nat)
    ensures var l := Dispatch(req, st, server, refresh, n);
      var sent := AttachToken(req, st);
      Refreshes(l.trace) > 0 ==>
        && ShouldRefresh(server(n, sent), sent)
        && Holds(st, RefreshToken)
        && l.trace[1] == RefreshCall(st[RefreshToken])
  {
    var sent := AttachToken(req, st);
    var l := Dispatch(req, st, server, refresh, n);
    if !ShouldRefresh(server(n, sent), sent) || !Holds(st, RefreshToken) {
      assert |l.trace| == 1;
      assert l.trace == [l.trace[0]];
      assert Refreshes(l.trace) == 0;
    }
  }

  /** With no refresh token stored, an expired token ends the session: all three keys
      are removed, the page goes to `/login`, and the caller's promise rejects. */
  lemma MissingRefreshTokenTearsDown(req: Request, st: Storage, server: Server, refresh: RefreshEndpoint, n: nat)
    requires var sent := AttachToken(req, st); ShouldRefresh(server(n, sent), sent)
    requires !Holds(st, RefreshToken)
    ensures var l := Dispatch(req, st, server, refresh, n);
      && l.result == Rejected(NoRefreshToken)
      && (forall k :: GetItem(l.storage, k) == None)
      && l.toLogin
      && l.trace == [Sent(AttachToken(req, st))]
  {
  }

  /** A failed refresh ends the session the same way, and nothing is sent after the
      refresh call: the refresh request is not itself intercepted. */
  lemma FailedRefreshTearsDown(req: Request, st: Storage, server: Server, refresh: RefreshEndpoint, n: nat)
    requires var sent := AttachToken(req, st); ShouldRefresh(server(n, sent), sent)
    requires Holds(st, RefreshToken) && refresh(st[RefreshToken]) == RefreshFailed
    ensures var l := Dispatch(req, st, server, refresh, n);
      && l.result == Rejected(RefreshRejected)
      && (forall k :: GetItem(l.storage, k) == None)
      && !IsAuthenticated(l.storage)
      && l.toLogin
      && l.trace == [Sent(AttachToken(req, st)), RefreshCall(st[RefreshToken])]
  {
    ClearSignsOut(st);
  }

  /** After a successful refresh both new tokens are stored, the user is left alone, and
      the original request is resent exactly once with the new token; whatever that
      resend gets, even another expired 401, is what the caller gets. */
  lemma RefreshedRequestIsResentOnce(req: Request, st: Storage, server: Server, refresh: RefreshEndpoint, n: nat,
                                     access: string, newRefresh: string)
    requires var sent := AttachToken(req, st); ShouldRefresh(server(n, sent), sent)
    requires Holds(st, RefreshToken) && refresh(st[RefreshToken]) == Refreshed(access, newRefresh)
    ensures var l := Dispatch(req, st, server, refresh, n);
      var first := AttachToken(req, st);
      var retry := first.(retried := true, authorization := Some(Bearer(access)));
      && l.trace == [Sent(first), RefreshCall(st[RefreshToken]), Sent(retry)]
      && l.result == Settle(server(n + 1, retry))
      && GetItem(l.storage, AccessToken) == Some(access)
      && GetItem(l.storage, RefreshToken) == Some(newRefresh)
      && GetItem(l.storage, UserKey) == GetItem(st, UserKey)
      && !l.toLogin
      && Sends(l.trace) == 2 && Refreshes(l.trace) == 1
  {
    var first := AttachToken(req, st);
    var st' := SetItem(SetItem(st, AccessToken, access), RefreshToken, newRefresh);
    var marked := first.(retried := true, authorization := Some(Bearer(access)));
    if |access| > 0 {
      assert GetItem(st', AccessToken) == Some(access);
      assert AttachToken(marked, st') == marked;
    }
    assert AttachToken(marked, st') == marked;
  }

  /** The refreshed session stays signed in exactly when the new access token is
      non-empty and a user is stored. */
  lemma RefreshKeepsUser(st: Storage, access: string, newRefresh: string)
    ensures var st' := SetItem(SetItem(st, AccessToken, access), RefreshToken, newRefresh);
      IsAuthenticated(st') <==> |access| > 0 && Holds(st, UserKey)
  {
  }
}
