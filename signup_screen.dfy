/** The sign-up screen: the password checks it makes before asking the server, and the
    message, success flag and loading flag it shows. */
module SignupScreen {
  import opened Wrappers
  import opened Json

  const PASSWORDS_DIFFER := "Passwords do not match"
  const PASSWORD_TOO_SHORT := "Password must be at least 6 characters"
  const SIGNUP_FAILED := "Failed to sign up"
  const MIN_PASSWORD_LENGTH := 6

  /** The checks before signing up: the passwords must agree, then be at least six
      characters long. The message shown, or none. */
  function SignupCheck(password: string, confirmPassword: string): (r: Option<string>)
    ensures r.None? <==> password == confirmPassword && |password| >= MIN_PASSWORD_LENGTH
    ensures password != confirmPassword ==> r == Some(PASSWORDS_DIFFER)
    ensures password == confirmPassword && |password| < MIN_PASSWORD_LENGTH ==> r == Some(PASSWORD_TOO_SHORT)
  {
    if password != confirmPassword then Some(PASSWORDS_DIFFER)
    else if |password| < MIN_PASSWORD_LENGTH then Some(PASSWORD_TOO_SHORT)
    else None
  }

  /** What the screen asks `signUp` for. */
  datatype SignUpRequest = SignUpRequest(email: string, password: string)

  class SignupForm {
    /** The message shown; a server message can be any JSON value. */
    var error: Json
    var success: bool
    var loading: bool

    constructor ()
      ensures error == JStr("") && !success && !loading
    {
      error := JStr("");
      success := false;
      loading := false;
    }

    /** `handleSubmit`: message and success are cleared; a failed check shows its message and
        asks nothing; otherwise `signUp` is asked, and either succeeds (success shown, the
        form stays busy until the page changes) or fails (its message shown, the form usable
        again). `failure` is the error `signUp` threw, if it did. */
    method HandleSubmit(email: string, password: string, confirmPassword: string, failure: Option<Json>)
      returns (asked: Option<SignUpRequest>)
      modifies this
      ensures SignupCheck(password, confirmPassword).Some? ==>
        && asked == None && error == JStr(SignupCheck(password, confirmPassword).value)
        && !success && loading == old(loading)
      ensures SignupCheck(password, confirmPassword).None? ==> asked == Some(SignUpRequest(email, password))
      ensures SignupCheck(password, confirmPassword).None? && failure.None? ==>
        success && loading && error == JStr("")
      ensures SignupCheck(password, confirmPassword).None? && failure.Some? ==>
        !success && !loading && error == ErrorMessage(failure.value, SIGNUP_FAILED)
      ensures asked.Some? ==> |asked.value.password| >= MIN_PASSWORD_LENGTH && asked.value.password == confirmPassword
    {
      error := JStr("");
      success := false;
      var problem := SignupCheck(password, confirmPassword);
      if problem.Some? {
        error := JStr(problem.value);
        return None;
      }
      loading := true;
      asked := Some(SignUpRequest(email, password));
      if failure.Some? {
        error := ErrorMessage(failure.value, SIGNUP_FAILED);
        loading := false;
      } else {
        success := true;
      }
    }
  }
}
