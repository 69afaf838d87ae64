/**
 * The sign-up form (`cadastro`): the password checks, then the terms, then
 * the call to `signUp`, whose outcome (the error it reports, if any) is a
 * parameter.
 */
module Signup {
  import opened Common
  import opened Passwords

  datatype SignupError = PasswordRefused(reason: PasswordError) | TermsNotAccepted | SignUpFailed(message: string)

  /** The checks of `handleSubmit`, in order. */
  function SignupGuard(password: string, confirmation: string, acceptTerms: bool): (r: Option<SignupError>)
    ensures r.None? <==> |password| >= MinPasswordLength && password == confirmation && acceptTerms
    ensures |password| < MinPasswordLength ==> r == Some(PasswordRefused(TooShort))
    ensures |password| >= MinPasswordLength && password != confirmation ==> r == Some(PasswordRefused(Mismatch))
  {
    match PasswordGuard(password, confirmation)
    case Some(reason) => Some(PasswordRefused(reason))
    case None => if !acceptTerms then Some(TermsNotAccepted) else None
  }

  /** The form's fields and flags. */
  class SignupForm {
    var name: string
    var email: string
    var password: string
    var confirmPassword: string
    var acceptTerms: bool
    var error: Option<SignupError>
    var loading: bool
    var success: bool

    constructor ()
      ensures name == "" && email == "" && password == "" && confirmPassword == ""
      ensures !acceptTerms && error.None? && !loading && !success
    {
      name := "";
      email := "";
      password := "";
      confirmPassword := "";
      acceptTerms := false;
      error := None;
      loading := false;
      success := false;
    }

    /** `handleSubmit`: `signUp(email, password, name)` is called exactly when
        every check passes; a reported error is shown and clears `loading`,
        otherwise `success` is set (and `loading` stays on). */
    method Submit(signUpError: Option<string>) returns (called: Option<(string, string, string)>)
      modifies this
      ensures called.Some? <==> SignupGuard(old(password), old(confirmPassword), old(acceptTerms)).None?
      ensures called.None? ==>
        error == SignupGuard(old(password), old(confirmPassword), old(acceptTerms))
        && loading == old(loading) && success == old(success)
      ensures called.Some? ==> called.value == (old(email), old(password), old(name))
      ensures called.Some? && signUpError.Some? ==>
        error == Some(SignUpFailed(signUpError.value)) && !loading && success == old(success)
      ensures called.Some? && signUpError.None? ==> error.None? && loading && success
      ensures name == old(name) && email == old(email) && password == old(password)
        && confirmPassword == old(confirmPassword) && acceptTerms == old(acceptTerms)
    {
      error := None;
      var refusal := SignupGuard(password, confirmPassword, acceptTerms);
      if refusal.Some? {
        error := refusal;
        return None;
      }
      loading := true;
      called := Some((email, password, name));
      if signUpError.Some? {
        error := Some(SignUpFailed(signUpError.value));
        loading := false;
      } else {
        success := true;
      }
    }
  }

  /** A sign-up that reaches the provider always has a password of at least
      eight characters that equals its confirmation, with the terms accepted. */
  lemma SignUpCallIsChecked(password: string, confirmation: string, acceptTerms: bool)
    requires SignupGuard(password, confirmation, acceptTerms).None?
    ensures |password| >= 8 && password == confirmation && acceptTerms
  {
  }
}
