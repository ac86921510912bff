/** The account sign-up form: the passwords must match, then be at least six
    UTF-16 units long, before the account service is called. */
module SignupForm {
  import opened Lottery

  const Mismatch: string := "As senhas não coincidem"
  const TooShort: string := "A senha deve ter pelo menos 6 caracteres"
  const CreateFailed: string := "Erro ao criar conta"
  const MinPasswordLength: nat := 6

  /** A character outside the Basic Multilingual Plane, which JavaScript
      stores as a surrogate pair. */
  predicate IsAstral(c: char)
  {
    c >= '\U{10000}'
  }

  /** JavaScript's `length`: UTF-16 code units, two for an astral character. */
  function Utf16Length(s: string): (r: nat)
    ensures |s| <= r <= 2 * |s|
  {
    if s == [] then 0 else (if IsAstral(s[0]) then 2 else 1) + Utf16Length(s[1..])
  }

  /** On text without astral characters the two lengths agree. */
  lemma {:induction false} Utf16LengthOfBmp(s: string)
    requires forall i :: 0 <= i < |s| ==> !IsAstral(s[i])
    ensures Utf16Length(s) == |s|
  {
    if s != [] {
      Utf16LengthOfBmp(s[1..]);
    }
  }

  /** The two checks, in the order they run: None when both pass. */
  function Validate(password: string, confirmPassword: string): (r: Option<string>)
    ensures r == Some(Mismatch) <==> password != confirmPassword
    ensures r == Some(TooShort) <==> password == confirmPassword && Utf16Length(password) < MinPasswordLength
    ensures r.None? <==> password == confirmPassword && Utf16Length(password) >= MinPasswordLength
  {
    if password != confirmPassword then Some(Mismatch)
    else if Utf16Length(password) < MinPasswordLength then Some(TooShort)
    else None
  }

  /** Three emoji are six UTF-16 units: long enough, although only three
      characters. */
  lemma ThreeEmojiAccepted()
    ensures Validate("\U{1F600}\U{1F600}\U{1F600}", "\U{1F600}\U{1F600}\U{1F600}").None?
  {
    var p := "\U{1F600}\U{1F600}\U{1F600}";
    assert IsAstral(p[0]) && IsAstral(p[1]) && IsAstral(p[2]);
    assert p[1..][1..][1..] == [];
  }

  /** What `signUp` gives back: a result whose `error` ("" when absent) and
      `success` flags are read, no result at all, or an exception. */
  datatype Answer = Returned(error: string, success: bool) | NoResult | Threw

  /** The form's visible state after a submit: the error line, whether the
      success card is shown, and whether the account service was called. */
  datatype Submission = Submission(error: string, success: bool, signUpCalled: bool)

  /** `handleSubmit`, starting from whether the success card was already shown. */
  function HandleSubmit(wasSuccess: bool, password: string, confirmPassword: string, answer: Answer)
    : (r: Submission)
    ensures r.signUpCalled <==> Validate(password, confirmPassword).None?
    ensures !r.signUpCalled ==> r.error == Validate(password, confirmPassword).value && r.success == wasSuccess
    ensures r.success <==> wasSuccess || (r.signUpCalled && answer.Returned? && answer.error == "" && answer.success)
    ensures r.signUpCalled ==> r.error == match answer
      case Returned(e, _) => e
      case NoResult => ""
      case Threw => CreateFailed
  {
    var check := Validate(password, confirmPassword);
    if check.Some? then Submission(check.value, wasSuccess, false)
    else match answer
      case Returned(e, ok) =>
        if e != "" then Submission(e, wasSuccess, true)
        else Submission("", wasSuccess || ok, true)
      case NoResult => Submission("", wasSuccess, true)
      case Threw => Submission(CreateFailed, wasSuccess, true)
  }

  /** Mismatched passwords report the mismatch even when they are also too
      short, and a previous error never survives a submit. */
  lemma MismatchWinsOverLength(password: string, confirmPassword: string, answer: Answer)
    requires password != confirmPassword && Utf16Length(password) < MinPasswordLength
    ensures HandleSubmit(false, password, confirmPassword, answer).error == Mismatch
    ensures !HandleSubmit(false, password, confirmPassword, answer).signUpCalled
  {
  }
}
