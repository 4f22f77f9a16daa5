/** The sign-in page: an email and a password checked by a zod schema
    before they are handed to the sign-in call. */
module SignIn {
  import opened Wrappers
  import opened JsStrings
  import opened Zod

  /** What the sign-in call receives. */
  datatype Credentials = Credentials(email: string, password: string)

  /** The schema's issues: the email is trimmed first, the password is
      checked as typed. */
  function Issues(email: string, password: string, isEmail: string -> bool): seq<Issue> {
    var e := Trim(email);
    EmailCheck("email", e, isEmail, "Please enter a valid email address")
    + MaxCheck("email", e, 255, "Email must be less than 255 characters")
    + MinCheck("password", password, 8, "Password must be at least 8 characters")
    + MaxCheck("password", password, 72, "Password must be less than 72 characters")
  }

  /** `authSchema.safeParse({ email, password })`. */
  function SafeParse(email: string, password: string, isEmail: string -> bool): Result<Credentials, seq<Issue>> {
    var issues := Issues(email, password, isEmail);
    if issues != [] then Failure(issues) else Success(Credentials(Trim(email), password))
  }

  /** The input is accepted exactly when the trimmed email is a valid
      address of at most 255 characters and the password has 8 to 72
      characters; the call then gets the trimmed email and the password
      unchanged, surrounding spaces included. */
  lemma SafeParseIff(email: string, password: string, isEmail: string -> bool)
    ensures SafeParse(email, password, isEmail).Success?
        <==> isEmail(Trim(email)) && |Trim(email)| <= 255 && 8 <= |password| <= 72
    ensures SafeParse(email, password, isEmail).Success?
        ==> SafeParse(email, password, isEmail).value == Credentials(Trim(email), password)
    ensures SafeParse(email, password, isEmail).Failure? ==> SafeParse(email, password, isEmail).error != []
  {
    var e := Trim(email);
    var a := EmailCheck("email", e, isEmail, "Please enter a valid email address");
    var b := MaxCheck("email", e, 255, "Email must be less than 255 characters");
    var c := MinCheck("password", password, 8, "Password must be at least 8 characters");
    var d := MaxCheck("password", password, 72, "Password must be less than 72 characters");
    assert |Issues(email, password, isEmail)| == |a| + |b| + |c| + |d|;
  }

  /** A short password with a valid email is reported with the password
      message alone. */
  lemma ShortPasswordMessage(email: string, password: string, isEmail: string -> bool)
    requires isEmail(Trim(email)) && |Trim(email)| <= 255 && |password| < 8
    ensures SafeParse(email, password, isEmail).Failure?
    ensures SafeParse(email, password, isEmail).error
         == [Issue("password", "Password must be at least 8 characters")]
  {
  }

  class AuthPage {
    var email: string
    var password: string
    var loading: bool

    constructor ()
      ensures email == [] && password == [] && !loading
    {
      email, password, loading := "", "", false;
    }

    /** The first half of `handleSignIn`. Invalid input shows only the first
        issue and makes no call; valid input starts loading and hands the
        checked credentials to the sign-in call. */
    method BeginSignIn(isEmail: string -> bool) returns (toast: Option<Toast>, call: Option<Credentials>)
      modifies this
      ensures call.Some? <==> SafeParse(email, password, isEmail).Success?
      ensures call.Some? ==> call.value == SafeParse(email, password, isEmail).value && toast.None? && loading
      ensures call.None? ==> toast == Some(Toast("Validation failed", SafeParse(email, password, isEmail).error[0].message, true))
                             && loading == old(loading)
      ensures email == old(email) && password == old(password)
    {
      var validation := SafeParse(email, password, isEmail);
      if validation.Failure? {
        SafeParseIff(email, password, isEmail);
        toast := Some(Toast("Validation failed", validation.error[0].message, true));
        call := None;
        return;
      }
      loading := true;
      toast, call := None, Some(validation.value);
    }

    /** The second half: the call has returned (`error` is its error
        message, `None` on success). Loading ends; on success the page goes
        home. */
    method FinishSignIn(error: Option<string>) returns (toast: Toast, goHome: bool)
      modifies this
      ensures !loading && email == old(email) && password == old(password)
      ensures goHome <==> error.None?
      ensures error.Some? ==> toast == Toast("Sign in failed", error.value, true)
      ensures error.None? ==> !toast.destructive
    {
      loading := false;
      if error.Some? {
        toast, goHome := Toast("Sign in failed", error.value, true), false;
      } else {
        toast, goHome := Toast("Welcome back!", "You have successfully signed in.", false), true;
      }
    }
  }
}
