/** The second sign-up page: the same two checks as the sign-up form, then
    the account service, whose result always has `error` and `success`. */
module SignUpPage {
  import opened Lottery
  import opened SignupForm

  /** `handleSubmit`: `serviceError` ("" when absent) and `serviceSuccess`
      are the fields of the service's result. */
  function Submit(wasSuccess: bool, password: string, confirmPassword: string,
                  serviceError: string, serviceSuccess: bool): (r: Submission)
    ensures r.signUpCalled <==> Validate(password, confirmPassword).None?
    ensures !r.signUpCalled ==> r.error == Validate(password, confirmPassword).value
    ensures r.signUpCalled ==> r.error == serviceError
    ensures r.success <==> wasSuccess || (r.signUpCalled && serviceError == "" && serviceSuccess)
  {
    var check := Validate(password, confirmPassword);
    if check.Some? then Submission(check.value, wasSuccess, false)
    else if serviceError != "" then Submission(serviceError, wasSuccess, true)
    else Submission("", wasSuccess || serviceSuccess, true)
  }

  /** The page behaves as the form does whenever the service answers. */
  lemma SameAsForm(wasSuccess: bool, password: string, confirmPassword: string, e: string, ok: bool)
    ensures Submit(wasSuccess, password, confirmPassword, e, ok)
            == HandleSubmit(wasSuccess, password, confirmPassword, Returned(e, ok))
  {
  }
}
