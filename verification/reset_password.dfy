/** The password-reset page (`src/pages/ResetPassword.jsx`): both fields must be filled
    and equal before the reset token and the passwords are sent. */
module ResetPassword {
  import opened Optional
  import AuthService

  const BothRequired: string := "Completa ambos campos"
  const Mismatch: string := "Las contraseñas no coinciden"
  const LoginPath: string := "/login"

  /** How a submission ends: stopped with a message before any request, or the service
      called with the token and both passwords, then possibly sent to the login page. */
  datatype Submission =
    | Stopped(message: string)
    | Sent(token: string, password: string, confirm: string,
           outcome: AuthService.Outcome<string>, navigateTo: Option<string>)

  /** `handleSubmit`. */
  function Submit(token: string, password: string, confirm: string, call: AuthService.Call<string>): (s: Submission)
    ensures s == Stopped(BothRequired) <==> |password| == 0 || |confirm| == 0
    ensures s == Stopped(Mismatch) <==> |password| > 0 && |confirm| > 0 && password != confirm
    ensures s.Sent? ==> s.token == token && s.password == password && s.confirm == confirm
    ensures s.Sent? ==> s.outcome == AuthService.ResetPassword(call)
    ensures s.Sent? ==> (s.navigateTo.Some? <==> call.Ok?)
    ensures s.Sent? && s.navigateTo.Some? ==> s.navigateTo.value == LoginPath
  {
    if |password| == 0 || |confirm| == 0 then Stopped(BothRequired)
    else if password != confirm then Stopped(Mismatch)
    else
      var o := AuthService.ResetPassword(call);
      Sent(token, password, confirm, o, if o.Done? then Some(LoginPath) else None)
  }

  /** The service is called exactly when a non-empty password was typed twice the same. */
  lemma SentIffConfirmed(token: string, password: string, confirm: string, call: AuthService.Call<string>)
    ensures Submit(token, password, confirm, call).Sent? <==> |password| > 0 && password == confirm
  {
  }
}
