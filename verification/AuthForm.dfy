/** The sign-in and sign-up forms: the checks made before the authentication service is
    called, and where a successful attempt leads. */
module AuthForm {
  import opened Common

  const EmptyFieldsMessage: string := "Harap isi semua kolom"
  const ShortPasswordMessage: string := "Kata sandi minimal 6 karakter"
  const MinPasswordLength: nat := 6
  const HomePath: string := "/"

  /** The call made to the authentication service. */
  datatype AuthCall =
    | SignInCall(email: string, password: string)
    | SignUpCall(email: string, password: string, emailRedirectTo: string)

  /** What an attempt produced: the error shown (if any), the call made (if any), and the
      page navigated to (if any). */
  datatype Attempt = Attempt(error: Option<string>, call: Option<AuthCall>, navigateTo: Option<string>)

  /** `handleSignIn`. `serviceError` is the error the service answers with, if any. */
  function SignIn(email: string, password: string, serviceError: Option<string>): (r: Attempt)
    ensures r.call.Some? <==> email != "" && password != ""
    ensures r.call.Some? ==> r.call.value == SignInCall(email, password)
    ensures r.call.None? ==> r.error == Some(EmptyFieldsMessage)
    ensures r.navigateTo.Some? <==> r.call.Some? && serviceError.None?
    ensures r.navigateTo.Some? ==> r.navigateTo.value == HomePath && r.error.None?
    ensures r.call.Some? && serviceError.Some? ==> r.error == serviceError
  {
    if email == "" || password == "" then Attempt(Some(EmptyFieldsMessage), None, None)
    else if serviceError.Some? then Attempt(serviceError, Some(SignInCall(email, password)), None)
    else Attempt(None, Some(SignInCall(email, password)), Some(HomePath))
  }

  /** `handleSignUp`: the emptiness check comes before the length check, and success stays
      on the page (the account still needs e-mail confirmation). */
  function SignUp(email: string, password: string, origin: string, serviceError: Option<string>): (r: Attempt)
    ensures r.call.Some? <==> email != "" && password != "" && |password| >= MinPasswordLength
    ensures r.call.Some? ==> r.call.value == SignUpCall(email, password, origin + "/")
    ensures email == "" || password == "" ==> r.error == Some(EmptyFieldsMessage)
    ensures email != "" && password != "" && |password| < MinPasswordLength ==> r.error == Some(ShortPasswordMessage)
    ensures r.call.Some? ==> r.error == serviceError
    ensures r.navigateTo.None?
  {
    if email == "" || password == "" then Attempt(Some(EmptyFieldsMessage), None, None)
    else if |password| < MinPasswordLength then Attempt(Some(ShortPasswordMessage), None, None)
    else Attempt(serviceError, Some(SignUpCall(email, password, origin + "/")), None)
  }

  /** Credentials good enough to register are good enough to attempt a sign-in, but not
      the other way round: a five-character password is sent when signing in only. */
  lemma SignUpStricterThanSignIn(email: string, password: string, origin: string, e1: Option<string>, e2: Option<string>)
    ensures SignUp(email, password, origin, e1).call.Some? ==> SignIn(email, password, e2).call.Some?
    ensures SignIn("a", "12345", e2).call.Some? && SignUp("a", "12345", origin, e1).call.None?
  {
  }
}
