/**
 * The password checks shared by the sign-up form (`cadastro`) and the two
 * profile pages: first the length, then the confirmation.
 */
module Passwords {
  import opened Common

  /** Passwords shorter than this are refused. */
  const MinPasswordLength := 8

  datatype PasswordError = TooShort | Mismatch

  /** The first failing check, or `None` when the password may be sent. */
  function PasswordGuard(password: string, confirmation: string): (r: Option<PasswordError>)
    ensures r.None? <==> |password| >= MinPasswordLength && password == confirmation
    ensures r == Some(Mismatch) ==> |password| >= MinPasswordLength
  {
    if |password| < MinPasswordLength then Some(TooShort)
    else if password != confirmation then Some(Mismatch)
    else None
  }

  /** The length is checked before the confirmation: a short password is
      reported as short even when the confirmation differs too. */
  lemma LengthFirst(password: string, confirmation: string)
    requires |password| < MinPasswordLength
    ensures PasswordGuard(password, confirmation) == Some(TooShort)
  {
  }
}
