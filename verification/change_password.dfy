/**
 * The change-password page (`ChangePasswordPage.tsx`): the form check
 * `validate`, and the submit handler that calls the API only when the check
 * reports nothing, then clears the must-change flag and moves on.
 */
module ChangePassword {
  import opened Wrappers
  import opened Text

  datatype FormState = FormState(currentPassword: string, newPassword: string, confirmPassword: string)

  /** The two messages the new password can get; the second replaces the first. */
  datatype NewPasswordError = TooShort | SameAsCurrent

  /** The keys `validate` sets: a missing current password, a new-password message, a mismatch. */
  datatype FormErrors = FormErrors(currentMissing: bool, newPassword: Option<NewPasswordError>, confirmMismatch: bool)

  /** `Object.keys(errs).length`. */
  function KeyCount(e: FormErrors): (n: nat)
    ensures n == 0 <==> !e.currentMissing && e.newPassword.None? && !e.confirmMismatch
    ensures n <= 3
  {
    (if e.currentMissing then 1 else 0) + (if e.newPassword.Some? then 1 else 0) + (if e.confirmMismatch then 1 else 0)
  }

  /** The minimum length of a new password, in UTF-16 code units. */
  const MIN_LENGTH := 8

  /** `validate`: the assignments run in order, so "same as current" overwrites "too short". */
  function Validate(form: FormState): (e: FormErrors)
    ensures e.currentMissing <==> form.currentPassword == ""
    ensures e.newPassword == Some(SameAsCurrent) <==>
      form.newPassword != "" && form.newPassword == form.currentPassword
    ensures e.newPassword == Some(TooShort) <==>
      Utf16Length(form.newPassword) < MIN_LENGTH && (form.newPassword == "" || form.newPassword != form.currentPassword)
    ensures e.confirmMismatch <==> form.newPassword != form.confirmPassword
  {
    var newError :=
      if form.newPassword != "" && form.newPassword == form.currentPassword then Some(SameAsCurrent)
      else if Utf16Length(form.newPassword) < MIN_LENGTH then Some(TooShort)
      else None;
    FormErrors(form.currentPassword == "", newError, form.newPassword != form.confirmPassword)
  }

  /** The form passes iff all four rules hold. */
  lemma {:induction false} ValidateEmptyIff(form: FormState)
    ensures KeyCount(Validate(form)) == 0 <==>
      && form.currentPassword != ""
      && Utf16Length(form.newPassword) >= MIN_LENGTH
      && form.newPassword != form.currentPassword
      && form.confirmPassword == form.newPassword
  {
  }

  /** A new password equal to the current one gets only the "different" message, whatever its length. */
  lemma {:induction false} SameOverridesShort()
    ensures Validate(FormState("abc", "abc", "abc")).newPassword == Some(SameAsCurrent)
    ensures Validate(FormState("", "abc", "abc")).newPassword == Some(TooShort)
  {
  }

  // ------------------------------------------------------------ submit

  /** The signed-in user as far as this page uses it. */
  datatype SessionUser = SessionUser(loginId: string, mustChangePassword: bool)

  datatype ChangeRequest = ChangeRequest(currentPassword: string, newPassword: string)

  /** What `authApi.changePassword` does, given as a parameter: success, or an error with its message. */
  datatype ApiOutcome = Accepted | Rejected(message: string)

  datatype SubmitResult =
    | ShowErrors(errors: FormErrors)
    | Changed(request: ChangeRequest, user: Option<SessionUser>, route: string)
    | ApiError(request: ChangeRequest, message: string)

  /**
   * `handleSubmit`: stop with the errors when `validate` reports any; else
   * send the current and new passwords, and on success clear the user's
   * must-change flag and go to `/connections`.
   */
  function HandleSubmit(form: FormState, user: Option<SessionUser>, api: ApiOutcome): (r: SubmitResult)
    ensures r.ShowErrors? <==> KeyCount(Validate(form)) > 0
    ensures r.ShowErrors? ==> r.errors == Validate(form)
    ensures !r.ShowErrors? ==> r.request == ChangeRequest(form.currentPassword, form.newPassword)
    ensures r.Changed? <==> KeyCount(Validate(form)) == 0 && api.Accepted?
    ensures r.Changed? ==> r.route == "/connections"
    ensures r.Changed? && user.None? ==> r.user.None?
    ensures r.Changed? && user.Some? ==> r.user == Some(user.value.(mustChangePassword := false))
  {
    var errs := Validate(form);
    if KeyCount(errs) > 0 then ShowErrors(errs)
    else
      var request := ChangeRequest(form.currentPassword, form.newPassword);
      match api
      case Accepted =>
        var user' := if user.Some? then Some(user.value.(mustChangePassword := false)) else None;
        Changed(request, user', "/connections")
      case Rejected(message) => ApiError(request, message)
  }

  /** The API is reached only with a current password, a long enough new one that differs, and a matching confirmation. */
  lemma {:induction false} ApiOnlyWhenValid(form: FormState, user: Option<SessionUser>, api: ApiOutcome)
    requires !HandleSubmit(form, user, api).ShowErrors?
    ensures form.currentPassword != "" && Utf16Length(form.newPassword) >= MIN_LENGTH
    ensures form.newPassword != form.currentPassword && form.confirmPassword == form.newPassword
  {
    ValidateEmptyIff(form);
  }
}
