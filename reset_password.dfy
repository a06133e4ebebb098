/**
 * The reset-password page (src/app/reset-password/page.tsx): the form is
 * shown only for a recovery link, and submitting it checks the two
 * passwords before asking the authentication service to change it.
 */
module ResetPassword {
  import opened Wrappers
  import opened Strings

  const MISMATCH := "Passwords do not match."
  const TOO_SHORT := "Password must be at least 6 characters long."
  const RESET_FAILED := "Failed to reset password. The link may have expired."
  const MIN_LENGTH := 6
  const RECOVERY_MARK := "type=recovery"
  const LOGIN := "/login"

  /** The form is shown when the URL hash contains `type=recovery`. */
  function HasRecoveryToken(hash: string): (r: bool)
    ensures r <==> exists k: nat :: OccursAt(hash, RECOVERY_MARK, k)
  {
    ContainsIff(hash, RECOVERY_MARK);
    Contains(hash, RECOVERY_MARK)
  }

  /** A recovery link's hash, after the access token, opens the form. */
  lemma RecoveryLinkOpensForm(token: string)
    ensures HasRecoveryToken("#access_token=" + token + "&" + RECOVERY_MARK)
  {
    var hash := "#access_token=" + token + "&" + RECOVERY_MARK;
    var k := |hash| - |RECOVERY_MARK|;
    assert OccursAt(hash, RECOVERY_MARK, k);
  }

  /** The first failing check, mismatch before length; `None` when both pass. */
  function Validate(password: string, confirmPassword: string): (e: Option<string>)
    ensures e.None? <==> password == confirmPassword && |password| >= MIN_LENGTH
    ensures password != confirmPassword ==> e == Some(MISMATCH)
    ensures password == confirmPassword && |password| < MIN_LENGTH ==> e == Some(TOO_SHORT)
  {
    if password != confirmPassword then Some(MISMATCH)
    else if |password| < MIN_LENGTH then Some(TOO_SHORT)
    else None
  }

  /** `err.message || default`. */
  function FailureMessage(message: string): (m: string)
    ensures m != ""
    ensures message != "" ==> m == message
  {
    if message != "" then message else RESET_FAILED
  }

  /** A mismatch is reported even for a too-short password, so the length error implies equal entries. */
  lemma MismatchFirst(password: string, confirmPassword: string)
    ensures Validate(password, confirmPassword) == Some(TOO_SHORT) ==> password == confirmPassword
    ensures |password| < MIN_LENGTH && password != confirmPassword ==> Validate(password, confirmPassword) == Some(MISMATCH)
  {
  }

  class ResetForm {
    var password: string
    var confirmPassword: string
    var loading: bool
    var error: string
    var hasRecoveryToken: bool
    /** The route the page navigated to, if any. */
    var navigatedTo: Option<string>

    /** The page state after the mount effect read the URL hash. */
    constructor (hash: string)
      ensures password == "" && confirmPassword == "" && !loading && error == ""
      ensures hasRecoveryToken == HasRecoveryToken(hash)
      ensures navigatedTo == None
    {
      password := "";
      confirmPassword := "";
      loading := false;
      error := "";
      hasRecoveryToken := HasRecoveryToken(hash);
      navigatedTo := None;
    }

    /**
     * `handleResetPassword`. `updateError` is what `updateUser` answers:
     * `None` for success, else the error's message. The result says whether
     * `updateUser` was called at all.
     */
    method HandleResetPassword(updateError: Option<string>) returns (called: bool)
      modifies this
      ensures called <==> Validate(old(password), old(confirmPassword)).None?
      ensures !called ==>
        error == Validate(old(password), old(confirmPassword)).value && loading == old(loading) && navigatedTo == old(navigatedTo)
      ensures called && updateError.None? ==> loading && error == "" && navigatedTo == Some(LOGIN)
      ensures called && updateError.Some? ==>
        !loading && error == FailureMessage(updateError.value) && navigatedTo == old(navigatedTo)
      ensures password == old(password) && confirmPassword == old(confirmPassword)
      ensures hasRecoveryToken == old(hasRecoveryToken)
    {
      if password != confirmPassword {
        error := MISMATCH;
        return false;
      }
      if |password| < MIN_LENGTH {
        error := TOO_SHORT;
        return false;
      }
      loading := true;
      error := "";
      called := true;
      if updateError.Some? {
        error := FailureMessage(updateError.value);
        loading := false;
      } else {
        navigatedTo := Some(LOGIN);
      }
    }
  }
}
