/**
 * The login page (`LoginPage.tsx`): the form check `validate`, and the
 * submit handler that signs in only when the check reports nothing and then
 * routes on the account's must-change-password flag.
 */
module Login {
  import opened Text

  datatype FormState = FormState(loginId: string, password: string)

  /** The keys `validate` sets. */
  datatype FormErrors = FormErrors(loginIdMissing: bool, passwordMissing: bool)

  /** `Object.keys(errs).length`. */
  function KeyCount(e: FormErrors): (n: nat)
    ensures n == 0 <==> !e.loginIdMissing && !e.passwordMissing
  {
    (if e.loginIdMissing then 1 else 0) + (if e.passwordMissing then 1 else 0)
  }

  /** `validate`: the login id is judged after trimming, the password as typed. */
  function Validate(form: FormState): (e: FormErrors)
    ensures e.passwordMissing <==> form.password == ""
  {
    FormErrors(Trim(form.loginId) == "", form.password == "")
  }

  /** A login id gets an error exactly when it is empty or white space only. */
  lemma {:induction false} LoginIdBlank(form: FormState)
    ensures Validate(form).loginIdMissing <==> IsBlank(form.loginId)
  {
    TrimEmptyIffBlank(form.loginId);
  }

  /** A password of spaces is not trimmed away: it passes the check. */
  lemma {:induction false} PasswordNotTrimmed()
    ensures !Validate(FormState("admin", " ")).passwordMissing
    ensures Validate(FormState(" ", "pw")).loginIdMissing
  {
    assert IsBlank(" ");
    LoginIdBlank(FormState(" ", "pw"));
  }

  // ------------------------------------------------------------ submit

  /** The signed-in user as far as this page reads it. */
  datatype SessionUser = SessionUser(loginId: string, mustChangePassword: bool)

  /** What `login` does, given as a parameter: the user it signs in, or an error with its message. */
  datatype LoginOutcome = SignedIn(user: SessionUser) | Failed(message: string)

  datatype SubmitResult =
    | ShowErrors(errors: FormErrors)
    | Navigated(loginId: string, password: string, route: string)
    | ApiError(loginId: string, password: string, message: string)

  /** The page a signed-in user is sent to. */
  function RouteAfterLogin(user: SessionUser): (route: string)
    ensures route == "/change-password" <==> user.mustChangePassword
    ensures route == "/connections" <==> !user.mustChangePassword
  {
    if user.mustChangePassword then "/change-password" else "/connections"
  }

  /**
   * `handleSubmit`: stop with the errors when `validate` reports any; else
   * sign in with the id and password as typed, and route on the user's flag.
   */
  function HandleSubmit(form: FormState, login: LoginOutcome): (r: SubmitResult)
    ensures r.ShowErrors? <==> KeyCount(Validate(form)) > 0
    ensures r.ShowErrors? ==> r.errors == Validate(form)
    ensures !r.ShowErrors? ==> r.loginId == form.loginId && r.password == form.password
    ensures r.Navigated? <==> KeyCount(Validate(form)) == 0 && login.SignedIn?
    ensures r.Navigated? ==> r.route == RouteAfterLogin(login.user)
    ensures r.ApiError? ==> login.Failed? && r.message == login.message
  {
    var errs := Validate(form);
    if KeyCount(errs) > 0 then ShowErrors(errs)
    else
      match login
      case SignedIn(user) => Navigated(form.loginId, form.password, RouteAfterLogin(user))
      case Failed(message) => ApiError(form.loginId, form.password, message)
  }

  /** Sign-in is attempted iff the id has a non-space character and the password is not empty. */
  lemma {:induction false} AttemptedIff(form: FormState, login: LoginOutcome)
    ensures !HandleSubmit(form, login).ShowErrors? <==> !IsBlank(form.loginId) && form.password != ""
  {
    LoginIdBlank(form);
  }
}
