/** The authentication context (`src/context/AuthContext.jsx`): the in-memory user and the
    `loading` and `isAuthenticated` flags every page reads, and how each context action
    changes them together with the session storage. */
module AuthContext {
  import opened Optional
  import opened Session
  import AuthService

  /** The context's state; `user` is the profile, in the same serialized form storage holds. */
  datatype Ctx = Ctx(user: Option<string>, loading: bool, isAuthenticated: bool)

  /** What a context action leaves behind: the new context, the new storage and what the
      caller of the action sees (a value, or the rethrown error body). */
  datatype Step<+T> = Step(ctx: Ctx, storage: Storage, outcome: AuthService.Outcome<T>)

  /** The state before `checkAuth` has run: no user, loading, not authenticated. */
  const Initial: Ctx := Ctx(None, true, false)

  /** Every context action keeps this: an authenticated context has a user. */
  predicate WellFormed(ctx: Ctx) {
    ctx.isAuthenticated ==> ctx.user.Some?
  }

  /** `checkAuth`: adopts the stored user only when a user is stored and the service
      reports a session; otherwise the user and flag stay as they were. Loading always ends. */
  function CheckAuth(ctx: Ctx, st: Storage): (c: Ctx)
    ensures !c.loading
    ensures IsAuthenticated(st) ==> c.user == CurrentUser(st) && c.user.Some? && c.isAuthenticated
    ensures !IsAuthenticated(st) ==> c.user == ctx.user && c.isAuthenticated == ctx.isAuthenticated
  {
    var stored := CurrentUser(st);
    if stored.Some? && IsAuthenticated(st) then Ctx(stored, false, true)
    else ctx.(loading := false)
  }

  /** On first load the context reflects the storage exactly. */
  lemma CheckAuthOnLoad(st: Storage)
    ensures var c := CheckAuth(Initial, st);
      && !c.loading
      && c.isAuthenticated == IsAuthenticated(st)
      && (c.isAuthenticated ==> c.user == CurrentUser(st))
      && (!c.isAuthenticated ==> c.user == None)
      && WellFormed(c)
  {
  }

  /** The shared shape of `login` and `googleLogin`: on success the returned user is
      adopted and the context is authenticated; on failure the error is rethrown and the
      context is left exactly as it was. */
  function SignIn(ctx: Ctx, st: Storage, e: AuthService.Effect<AuthService.SessionData>): (s: Step<AuthService.SessionData>)
    ensures s.storage == e.storage && s.outcome == e.outcome
    ensures e.outcome.Done? ==> s.ctx == ctx.(user := Some(e.outcome.value.user), isAuthenticated := true)
    ensures e.outcome.Thrown? ==> s.ctx == ctx
  {
    match e.outcome
    case Done(d) => Step(ctx.(user := Some(d.user), isAuthenticated := true), e.storage, e.outcome)
    case Thrown(_) => Step(ctx, e.storage, e.outcome)
  }

  /** Context `login`. */
  function Login(ctx: Ctx, st: Storage, call: AuthService.Call<AuthService.SessionData>): Step<AuthService.SessionData> {
    SignIn(ctx, st, AuthService.Login(st, call))
  }

  /** Context `googleLogin`. */
  function GoogleLogin(ctx: Ctx, st: Storage, call: AuthService.Call<AuthService.SessionData>): Step<AuthService.SessionData> {
    SignIn(ctx, st, AuthService.GoogleAuth(st, call))
  }

  /** A context login succeeds exactly when the server call does; then context and storage
      agree on the user, and otherwise neither the context nor the storage changes. */
  lemma LoginAgreesWithStorage(ctx: Ctx, st: Storage, call: AuthService.Call<AuthService.SessionData>)
    ensures var s := Login(ctx, st, call);
      && (s.outcome.Done? <==> call.Ok?)
      && (call.Ok? ==> s.ctx.isAuthenticated && s.ctx.user == GetItem(s.storage, UserKey))
      && (call.Ok? ==> s.ctx.loading == ctx.loading)
      && (call.Fail? ==> s.ctx == ctx && s.storage == st)
    ensures var s := GoogleLogin(ctx, st, call);
      && (s.outcome.Done? <==> call.Ok?)
      && (call.Ok? ==> s.ctx.isAuthenticated && s.ctx.user == GetItem(s.storage, UserKey))
      && (call.Fail? ==> s.ctx == ctx && s.storage == st)
  {
  }

  /** Context `logout`: the service's `logout` never throws, so the success path always
      runs; user and flag are cleared and storage is emptied whatever the server said. */
  function Logout<T>(ctx: Ctx, st: Storage, call: AuthService.Call<T>): (s: (Ctx, Storage))
    ensures s.0.user == None && !s.0.isAuthenticated && s.0.loading == ctx.loading
    ensures !IsAuthenticated(s.1)
  {
    (ctx.(user := None, isAuthenticated := false), AuthService.Logout(st, call))
  }

  /** Context `register`: user and flag never change, and storage is untouched. */
  function Register<T>(ctx: Ctx, st: Storage, call: AuthService.Call<T>): (s: Step<T>)
    ensures s.ctx == ctx && s.storage == st
    ensures s.outcome.Done? <==> call.Ok?
  {
    var e := AuthService.Register(st, call);
    Step(ctx, e.storage, e.outcome)
  }

  /** `updateUser`: the in-memory user and the stored user become the same profile; the
      tokens and the flags are untouched. */
  function UpdateUser(ctx: Ctx, st: Storage, user: string): (s: (Ctx, Storage))
    ensures s.0.user == GetItem(s.1, UserKey) == Some(user)
    ensures s.0.isAuthenticated == ctx.isAuthenticated && s.0.loading == ctx.loading
    ensures GetItem(s.1, AccessToken) == GetItem(st, AccessToken)
    ensures GetItem(s.1, RefreshToken) == GetItem(st, RefreshToken)
  {
    (ctx.(user := Some(user)), SetItem(st, UserKey, user))
  }

  /** Every context action keeps an authenticated context paired with a user. */
  lemma ActionsKeepWellFormed<T>(ctx: Ctx, st: Storage, call: AuthService.Call<AuthService.SessionData>,
                                 other: AuthService.Call<T>, user: string)
    requires WellFormed(ctx)
    ensures WellFormed(Initial)
    ensures WellFormed(CheckAuth(ctx, st))
    ensures WellFormed(Login(ctx, st, call).ctx)
    ensures WellFormed(GoogleLogin(ctx, st, call).ctx)
    ensures WellFormed(Logout(ctx, st, other).0)
    ensures WellFormed(Register(ctx, st, other).ctx)
    ensures WellFormed(UpdateUser(ctx, st, user).0)
  {
  }
}
