/** The auth service (`src/api/authService.js`): each call to the API server, with its
    effect on the session storage. A server call is a parameter that either succeeded
    with a body or failed with an optional error body (`error.response?.data`). */
module AuthService {
  import opened Optional
  import opened Session

  /** An error body from the server, or the service's own default one. */
  datatype ErrorBody = ErrorBody(message: Option<string>, needsVerification: bool, email: Option<string>)

  /** How a server call ended. */
  datatype Call<+T> = Ok(data: T) | Fail(body: Option<ErrorBody>)

  /** How a service call ends for its caller: a value, or a thrown error body. */
  datatype Outcome<+T> = Done(value: T) | Thrown(error: ErrorBody)

  /** The body of a successful login or Google sign-in; `user` is the serialized profile. */
  datatype SessionData = SessionData(user: string, accessToken: string, refreshToken: string)

  /** The body returned for a call's effect on storage together with its outcome. */
  datatype Effect<+T> = Effect(storage: Storage, outcome: Outcome<T>)

  const RegisterError: string := "Error en el registro"
  const LoginError: string := "Error en el login"
  const GoogleError: string := "Error en autenticación con Google"
  const VerifyEmailError: string := "Error al verificar email"
  const ResendError: string := "Error al reenviar email"
  const ProfileError: string := "Error al obtener perfil"
  const RequestResetError: string := "Error al solicitar reseteo"
  const ResetError: string := "Error al resetear contraseña"

  /** `throw error.response?.data || { message: fallback }`. */
  function ErrorOf(body: Option<ErrorBody>, fallback: string): (e: ErrorBody)
    ensures body.Some? ==> e == body.value
    ensures body.None? ==> e.message == Some(fallback) && !e.needsVerification
  {
    body.GetOr(ErrorBody(Some(fallback), false, None))
  }

  /** `error.response?.data?.message || fallback`: the server's message when it sent a
      non-empty one, the page's own text otherwise. */
  function MessageOf(body: Option<ErrorBody>, fallback: string): (m: string)
    ensures body.Some? && body.value.message.Some? && |body.value.message.value| > 0 ==> m == body.value.message.value
    ensures body.None? || body.value.message.None? || body.value.message.value == "" ==> m == fallback
  {
    if body.Some? && body.value.message.Some? && |body.value.message.value| > 0 then body.value.message.value
    else fallback
  }

  /** The shape every wrapper shares: the server's body on success, its error body or a
      default message on failure. */
  function Wrap<T>(call: Call<T>, fallback: string): (o: Outcome<T>)
    ensures call.Ok? <==> o.Done?
    ensures call.Ok? ==> o.value == call.data
    ensures call.Fail? ==> o.error == ErrorOf(call.body, fallback)
  {
    match call
    case Ok(d) => Done(d)
    case Fail(b) => Thrown(ErrorOf(b, fallback))
  }

  /** The three `setItem` calls after a successful sign-in. */
  function Store(st: Storage, d: SessionData): Storage {
    SetItem(SetItem(SetItem(st, AccessToken, d.accessToken), RefreshToken, d.refreshToken), UserKey, d.user)
  }

  /** `register`: never touches storage (the account still needs email verification). */
  function Register<T>(st: Storage, call: Call<T>): (e: Effect<T>)
    ensures e.storage == st
    ensures e.outcome == Wrap(call, RegisterError)
  {
    Effect(st, Wrap(call, RegisterError))
  }

  /** Sign-in through `endpoint`: on success storage holds exactly the returned access
      token, refresh token and user; on failure storage is unchanged and the error body
      (or the default message) is thrown. */
  function SignIn(st: Storage, call: Call<SessionData>, fallback: string): (e: Effect<SessionData>)
    ensures call.Ok? ==>
      && GetItem(e.storage, AccessToken) == Some(call.data.accessToken)
      && GetItem(e.storage, RefreshToken) == Some(call.data.refreshToken)
      && GetItem(e.storage, UserKey) == Some(call.data.user)
      && e.storage.Keys == AllKeys
      && e.outcome == Done(call.data)
    ensures call.Fail? ==> e.storage == st && e.outcome == Thrown(ErrorOf(call.body, fallback))
  {
    match call
    case Ok(d) =>
      KeysBounded(st);
      Effect(Store(st, d), Done(d))
    case Fail(b) => Effect(st, Thrown(ErrorOf(b, fallback)))
  }

  /** `login`. */
  function Login(st: Storage, call: Call<SessionData>): Effect<SessionData> {
    SignIn(st, call, LoginError)
  }

  /** `googleAuth`: the same storage effect as `login`, with its own default message. */
  function GoogleAuth(st: Storage, call: Call<SessionData>): Effect<SessionData> {
    SignIn(st, call, GoogleError)
  }

  /** `logout`: the server call is best effort; its failure is swallowed and the three
      keys are removed either way. */
  function Logout<T>(st: Storage, call: Call<T>): (st': Storage)
    ensures forall k :: GetItem(st', k) == None
    ensures !IsAuthenticated(st') && CurrentUser(st') == None
  {
    ClearSignsOut(st);
    Clear(st)
  }

  /** The ending of `logout` does not depend on how the server call went. */
  lemma LogoutIgnoresServer<T>(st: Storage, a: Call<T>, b: Call<T>)
    ensures Logout(st, a) == Logout(st, b)
  {
  }

  /** A successful sign-in with a non-empty token and user leaves the session
      authenticated with that user; a failed one changes nothing. */
  lemma SignInAuthenticates(st: Storage, call: Call<SessionData>)
    ensures var e := Login(st, call);
      && (call.Ok? ==> (IsAuthenticated(e.storage) <==> |call.data.accessToken| > 0 && |call.data.user| > 0))
      && (call.Ok? && |call.data.user| > 0 ==> CurrentUser(e.storage) == Some(call.data.user))
      && (call.Fail? ==> IsAuthenticated(e.storage) == IsAuthenticated(st))
  {
  }

  /** Signing in and then out: authenticated in between, signed out afterwards. */
  lemma LoginThenLogout<T>(st: Storage, d: SessionData, out: Call<T>)
    requires |d.accessToken| > 0 && |d.user| > 0
    ensures IsAuthenticated(Login(st, Ok(d)).storage)
    ensures !IsAuthenticated(Logout(Login(st, Ok(d)).storage, out))
  {
  }

  /** A sign-in the server refuses because the email is unverified throws a body that
      still says so, and stores nothing. */
  lemma UnverifiedLoginIsDistinguishable(st: Storage, body: ErrorBody)
    requires body.needsVerification
    ensures Login(st, Fail(Some(body))).outcome.error.needsVerification
    ensures Login(st, Fail(Some(body))).storage == st
  {
  }

  /** The concrete sign-in of user "alice" stores exactly that triple. */
  lemma AliceSignsIn()
    ensures var st := Login(map[], Ok(SessionData("{\"id\":\"u1\",\"username\":\"alice\"}", "A1", "R1"))).storage;
      st == map[AccessToken := "A1", RefreshToken := "R1", UserKey := "{\"id\":\"u1\",\"username\":\"alice\"}"]
  {
  }

  /** `verifyEmail`, `resendVerification`, `getProfile`, `requestPasswordReset` and
      `resetPassword`: storage-free wrappers, each with its own default message. */
  function VerifyEmail<T>(call: Call<T>): Outcome<T> { Wrap(call, VerifyEmailError) }
  function ResendVerification<T>(call: Call<T>): Outcome<T> { Wrap(call, ResendError) }
  function GetProfile<T>(call: Call<T>): Outcome<T> { Wrap(call, ProfileError) }
  function RequestPasswordReset<T>(call: Call<T>): Outcome<T> { Wrap(call, RequestResetError) }
  function ResetPassword<T>(call: Call<T>): Outcome<T> { Wrap(call, ResetError) }
}
