/** Email/password and Google sign-in (src/components/auth/LoginForm.js). */
module LoginForm {
  import opened Strings

  /** How an auth call ends: success, or an error with its `code` and `message`. */
  datatype AuthOutcome = AuthOk | AuthError(code: string, message: string)

  /** The auth calls a submit makes: sign-in, or account creation followed by the profile update. */
  datatype AuthCall = SignIn(email: string, password: string) | CreateUser(email: string, password: string) | UpdateProfile(displayName: string)

  /** The friendly messages for the known error codes. */
  const FriendlyMessages: map<string, string> := map[
    "auth/email-already-in-use" := "This email is already registered. Please sign in instead.",
    "auth/invalid-email" := "Please enter a valid email address.",
    "auth/weak-password" := "Password should be at least 6 characters long.",
    "auth/user-not-found" := "No account found with this email. Please sign up.",
    "auth/wrong-password" := "Incorrect password. Please try again.",
    "auth/too-many-requests" := "Too many failed attempts. Please try again later."
  ]

  /** The `switch (error.code)` of the submit handler. */
  function ErrorMessage(code: string, message: string): (r: string)
    ensures code in FriendlyMessages ==> r == FriendlyMessages[code]
    ensures code !in FriendlyMessages ==> r == message
  {
    if code == "auth/email-already-in-use" then "This email is already registered. Please sign in instead."
    else if code == "auth/invalid-email" then "Please enter a valid email address."
    else if code == "auth/weak-password" then "Password should be at least 6 characters long."
    else if code == "auth/user-not-found" then "No account found with this email. Please sign up."
    else if code == "auth/wrong-password" then "Incorrect password. Please try again."
    else if code == "auth/too-many-requests" then "Too many failed attempts. Please try again later."
    else message
  }

  const BlankNameError := "Please enter your display name"

  class LoginForm {
    var isSignUp: bool
    var email: string
    var password: string
    var displayName: string
    var error: string
    var loading: bool

    constructor ()
      ensures !isSignUp && email == "" && password == "" && displayName == "" && error == "" && !loading
    {
      isSignUp := false;
      email := "";
      password := "";
      displayName := "";
      error := "";
      loading := false;
    }

    method SetFields(email: string, password: string, displayName: string)
      modifies this`email, this`password, this`displayName
      ensures this.email == email && this.password == password && this.displayName == displayName
    {
      this.email := email;
      this.password := password;
      this.displayName := displayName;
    }

    /**
     * `handleEmailPasswordAuth`: sign-up refuses a blank display name before any auth call, then creates
     * the account (`create`) and, only if that succeeded, sets the trimmed name on the profile (`profile`);
     * sign-in makes one call (`create`).
     * Either way the error is cleared first and loading is off at the end. The blank test is stated as
     * `AllSpace`, which `Strings.BlankIffAllSpace` shows is the same as an empty `trim()`.
     */
    method HandleEmailPasswordAuth(create: AuthOutcome, profile: AuthOutcome) returns (calls: seq<AuthCall>)
      modifies this`error, this`loading
      ensures !loading
      ensures isSignUp && AllSpace(displayName) ==> calls == [] && error == BlankNameError
      ensures isSignUp && !AllSpace(displayName) ==>
        calls == [CreateUser(email, password)] + (if create.AuthOk? then [UpdateProfile(Trim(displayName))] else [])
        && error == (if create.AuthError? then ErrorMessage(create.code, create.message)
                     else if profile.AuthError? then ErrorMessage(profile.code, profile.message)
                     else "")
      ensures !isSignUp ==>
        calls == [SignIn(email, password)]
        && error == (if create.AuthError? then ErrorMessage(create.code, create.message) else "")
    {
      error := "";
      loading := true;
      if isSignUp && AllSpace(displayName) {
        error := BlankNameError;
        calls := [];
      } else if isSignUp {
        calls := [CreateUser(email, password)];
        if create.AuthError? {
          error := ErrorMessage(create.code, create.message);
        } else {
          calls := calls + [UpdateProfile(Trim(displayName))];
          if profile.AuthError? {
            error := ErrorMessage(profile.code, profile.message);
          }
        }
      } else {
        calls := [SignIn(email, password)];
        if create.AuthError? {
          error := ErrorMessage(create.code, create.message);
        }
      }
      loading := false;
    }

    /** `signInWithGoogle`: clears the error, and shows the raw message of a failed popup. */
    method SignInWithGoogle(outcome: AuthOutcome)
      modifies this`error, this`loading
      ensures !loading && error == if outcome.AuthError? then outcome.message else ""
    {
      error := "";
      loading := true;
      if outcome.AuthError? {
        error := outcome.message;
      }
      loading := false;
    }

    /** `toggleMode`: switch between sign-in and sign-up with an empty form. */
    method ToggleMode()
      modifies this`isSignUp, this`error, this`email, this`password, this`displayName
      ensures isSignUp == !old(isSignUp) && error == "" && email == "" && password == "" && displayName == ""
    {
      isSignUp := !isSignUp;
      error := "";
      email := "";
      password := "";
      displayName := "";
    }
  }

  // ----- Properties -----

  /** Different known codes get different messages, and none of them is the blank-name message. */
  lemma FriendlyMessagesAreDistinct(c1: string, c2: string, m: string)
    requires c1 in FriendlyMessages && c2 in FriendlyMessages && c1 != c2
    ensures ErrorMessage(c1, m) != ErrorMessage(c2, m) && ErrorMessage(c1, m) != BlankNameError
  {
  }

  /** A failing auth call always leaves an error on the form, unless its own message is empty. */
  lemma FailureShowsError(code: string, message: string)
    requires message != ""
    ensures ErrorMessage(code, message) != ""
  {
  }
}
