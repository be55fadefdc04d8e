/** The login form: two length checks before the login call, a loading
    flag around the call, and what the user is shown afterwards. The call
    itself goes to a remote service; here its answer is a parameter. */
module Login {
  import opened Common

  const MinUsernameLength: nat := 3
  const MinPasswordLength: nat := 8

  const UsernameTooShort: string := "Username must be at least 3 characters."
  const PasswordTooShort: string := "Password must be at least 8 characters."
  const DefaultFailure: string := "Invalid credentials."

  /** What `login` resolves to: `{ success, error? }`. */
  datatype LoginResult = LoginResult(success: bool, error: Option<string>)

  /** The credentials handed to `login`. */
  datatype Credentials = Credentials(username: string, password: string)

  /** What the user sees after a submission. */
  datatype Feedback =
    | ValidationError(message: string)
    | Welcome(navigateTo: string)
    | LoginFailed(message: string)

  /** The validation message of a submission, `None` when both checks pass.
      The username is checked first. */
  function ValidationMessage(username: string, password: string): (r: Option<string>)
    ensures r.None? <==> |username| >= MinUsernameLength && |password| >= MinPasswordLength
    ensures r == Some(UsernameTooShort) <==> |username| < MinUsernameLength
    ensures r == Some(PasswordTooShort) <==> |username| >= MinUsernameLength && |password| < MinPasswordLength
  {
    if |username| < MinUsernameLength then Some(UsernameTooShort)
    else if |password| < MinPasswordLength then Some(PasswordTooShort)
    else None
  }

  /** `result.error || "Invalid credentials."`: the service's message when it
      sent a non-empty one. The message shown is never empty. */
  function FailureMessage(result: LoginResult): (m: string)
    ensures result.error.Some? && result.error.value != "" ==> m == result.error.value
    ensures result.error.None? || result.error.value == "" ==> m == DefaultFailure
    ensures m != ""
  {
    match result.error
    case Some(e) => if e != "" then e else DefaultFailure
    case None => DefaultFailure
  }

  /** The feedback once `login` has answered. */
  function AfterLogin(result: LoginResult): (f: Feedback)
    ensures f.Welcome? <==> result.success
    ensures f.Welcome? ==> f.navigateTo == "/"
    ensures f.LoginFailed? ==> f.message == FailureMessage(result)
  {
    if result.success then Welcome("/") else LoginFailed(FailureMessage(result))
  }

  /** When both fields are too short, only the username error is raised. */
  lemma UsernameCheckedFirst(username: string, password: string)
    requires |username| < MinUsernameLength && |password| < MinPasswordLength
    ensures ValidationMessage(username, password) == Some(UsernameTooShort)
  {
  }

  class LoginForm {
    var username: string
    var password: string
    var isLoading: bool

    constructor ()
      ensures username == "" && password == "" && !isLoading
    {
      username := "";
      password := "";
      isLoading := false;
    }

    method SetUsername(text: string)
      modifies this`username
      ensures username == text
    {
      username := text;
    }

    method SetPassword(text: string)
      modifies this`password
      ensures password == text
    {
      password := text;
    }

    /** `handleSubmit`, given the answer `login` gives when it is called.
        Returns the calls made to `login`, whether loading was on while the
        call ran, and the feedback shown. */
    method HandleSubmit(answer: LoginResult)
      returns (calls: seq<Credentials>, loadingDuringCall: bool, feedback: Feedback)
      modifies this`isLoading
      ensures ValidationMessage(username, password).Some? ==>
                calls == [] && feedback == ValidationError(ValidationMessage(username, password).value)
                && isLoading == old(isLoading)
      ensures ValidationMessage(username, password).None? ==>
                calls == [Credentials(username, password)] && loadingDuringCall
                && feedback == AfterLogin(answer) && !isLoading
    {
      calls, loadingDuringCall := [], false;
      if |username| < MinUsernameLength {
        feedback := ValidationError(UsernameTooShort);
        return;
      }
      if |password| < MinPasswordLength {
        feedback := ValidationError(PasswordTooShort);
        return;
      }
      isLoading := true;
      calls := calls + [Credentials(username, password)];
      loadingDuringCall := isLoading;
      isLoading := false;
      if answer.success {
        feedback := Welcome("/");
      } else {
        feedback := LoginFailed(if answer.error.Some? && answer.error.value != "" then answer.error.value
                                else DefaultFailure);
      }
    }
  }
}
