/** The sign-in form: its schema, the messages for failed sign-ins and the
    redirect after a successful one. */
module Login {
  import opened Wrappers
  import opened Forms
  import opened Text

  const EmailError := FieldError("email", "Please enter a valid email address.")
  const PasswordError := FieldError("password", "Password must be at least 6 characters.")

  /** `formSchema`. */
  function Validate(email: string, password: string): (errs: seq<FieldError>)
    ensures errs == [] <==> IsValidEmail(email) && |password| >= 6
    ensures !IsValidEmail(email) <==> EmailError in errs
    ensures |password| < 6 <==> PasswordError in errs
  {
    (if !IsValidEmail(email) then [EmailError] else [])
    + (if |password| < 6 then [PasswordError] else [])
  }

  const BadCredentials := "Invalid email or password. Please try again."
  const Unexpected := "An unexpected error occurred. Please try again later."
  const NotConfigured := "Firebase is not configured correctly. Please check your API keys."

  /** The codes reported as wrong credentials. */
  predicate IsCredentialCode(code: string) {
    code == "auth/wrong-password" || code == "auth/user-not-found"
    || code == "auth/invalid-credential" || code == "auth/invalid-email"
  }

  /** The message shown for a failed sign-in's error code. */
  function ErrorMessage(code: string): (m: string)
    ensures m == BadCredentials <==> IsCredentialCode(code)
    ensures m == Unexpected <==> !IsCredentialCode(code)
  {
    if IsCredentialCode(code) then BadCredentials else Unexpected
  }

  /** How the sign-in call ended: success, or an error with its code. */
  datatype SignInOutcome = SignedIn | Failed(code: string)

  class LoginForm {
    /** The `redirect` parameter of the page's URL. */
    const redirectUrl: Option<string>
    var error: Option<string>
    var navigatedTo: Option<string>

    constructor (redirectUrl: Option<string>)
      ensures this.redirectUrl == redirectUrl && error == None && navigatedTo == None
    {
      this.redirectUrl := redirectUrl;
      error := None;
      navigatedTo := None;
    }

    /** Where a successful sign-in goes: the redirect parameter, else "/". */
    function Destination(): (d: string)
      reads this
      ensures redirectUrl.Some? && redirectUrl.value != "" ==> d == redirectUrl.value
      ensures redirectUrl.None? || redirectUrl == Some("") ==> d == "/"
    {
      if redirectUrl.Some? && redirectUrl.value != "" then redirectUrl.value else "/"
    }

    /** `onSubmit`: without an authentication instance only the
        configuration error is set and no sign-in is attempted; otherwise
        the error is cleared, and then either the page navigates or the
        error code's message is shown. */
    method OnSubmit(authConfigured: bool, outcome: SignInOutcome) returns (attempted: bool)
      modifies this
      ensures attempted <==> authConfigured
      ensures !authConfigured ==> error == Some(NotConfigured) && navigatedTo == old(navigatedTo)
      ensures authConfigured && outcome == SignedIn ==> error == None && navigatedTo == Some(Destination())
      ensures authConfigured && outcome.Failed? ==>
                error == Some(ErrorMessage(outcome.code)) && navigatedTo == old(navigatedTo)
    {
      if !authConfigured {
        error := Some(NotConfigured);
        return false;
      }
      error := None;
      match outcome {
        case SignedIn =>
          navigatedTo := Some(Destination());
        case Failed(code) =>
          error := Some(ErrorMessage(code));
      }
      return true;
    }
  }
}
