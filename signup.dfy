/**
 * The sign-up form: the password checks made before the sign-up call (the
 * mismatch check first, then the minimum length), the call itself, and the
 * "account already exists" case the service reports as a user without
 * identities. The busy flag is cleared on every exit.
 */
module SignUp {
  import opened Wrappers
  import opened Text

  const MismatchMessage := "Passwords do not match"
  const TooShortMessage := "Password must be at least 6 characters"
  const ExistsMessage := "An account with this email already exists. Please sign in or use a different email."

  /** The shortest password accepted, in UTF-16 code units (`password.length`). */
  const MinPasswordLength: nat := 6

  /** The first password check that fails, if any; the mismatch check comes first. */
  function PasswordError(password: string, confirmPassword: string): (e: Option<string>)
    ensures e.None? <==> password == confirmPassword && Utf16Length(password) >= MinPasswordLength
    ensures password != confirmPassword ==> e == Some(MismatchMessage)
    ensures password == confirmPassword && Utf16Length(password) < MinPasswordLength ==> e == Some(TooShortMessage)
  {
    if password != confirmPassword then Some(MismatchMessage)
    else if Utf16Length(password) < MinPasswordLength then Some(TooShortMessage)
    else None
  }

  /** For passwords without astral characters the length rule is plain character count: six or more pass. */
  lemma BmpPasswordRule(password: string)
    requires forall i :: 0 <= i < |password| ==> password[i] as int <= 0xFFFF
    ensures PasswordError(password, password).None? <==> |password| >= MinPasswordLength
    ensures |password| < MinPasswordLength ==> PasswordError(password, password) == Some(TooShortMessage)
  {
    Utf16LengthBmp(password);
  }

  /** The user the service returns: `identities` may be missing. */
  datatype SignedUpUser = SignedUpUser(identityCount: Option<nat>)

  /** The sign-up call reports an error, or returns (possibly) a user. */
  datatype SignUpOutcome = SignUpFailed(message: string) | SignedUp(user: Option<SignedUpUser>)

  /** `data.user && data.user.identities?.length === 0`: the address is already registered. */
  predicate AlreadyRegistered(outcome: SignUpOutcome) {
    outcome.SignedUp? && outcome.user.Some? && outcome.user.value.identityCount == Some(0)
  }

  /** The sign-up request: the address, the password and where the confirmation link leads. */
  datatype SignUpRequest = SignUpRequest(email: string, password: string, emailRedirectTo: string)

  /** The form's state. */
  class SignUpForm {
    var email: string
    var password: string
    var confirmPassword: string
    var error: Option<string>
    var isLoading: bool
    var isSuccess: bool

    constructor()
      ensures email == "" && password == "" && confirmPassword == ""
      ensures error.None? && !isLoading && !isSuccess
    {
      email, password, confirmPassword := "", "", "";
      error := None;
      isLoading, isSuccess := false, false;
    }

    /**
     * `handleSignUp`. `origin` is the page's origin and `outcome` the
     * service's answer. Returns the request made, if the checks let it through.
     */
    method HandleSignUp(origin: string, outcome: SignUpOutcome) returns (request: Option<SignUpRequest>)
      modifies this
      ensures request.Some? <==> PasswordError(password, confirmPassword).None?
      ensures request.Some? ==> request.value == SignUpRequest(email, password, origin + "/auth/callback")
      ensures request.None? ==> error == PasswordError(password, confirmPassword) && isSuccess == old(isSuccess)
      ensures request.Some? && outcome.SignUpFailed? ==> error == Some(outcome.message) && isSuccess == old(isSuccess)
      ensures request.Some? && AlreadyRegistered(outcome) ==> error == Some(ExistsMessage) && isSuccess == old(isSuccess)
      // success only once every check has passed
      ensures isSuccess != old(isSuccess) ==> request.Some? && outcome.SignedUp? && !AlreadyRegistered(outcome)
      ensures request.Some? && outcome.SignedUp? && !AlreadyRegistered(outcome) ==> isSuccess && error.None?
      ensures !isLoading
      ensures email == old(email) && password == old(password) && confirmPassword == old(confirmPassword)
    {
      isLoading := true;
      error := None;
      request := None;
      var invalid := PasswordError(password, confirmPassword);
      if invalid.Some? {
        error := invalid;
        isLoading := false;
        return;
      }
      request := Some(SignUpRequest(email, password, origin + "/auth/callback"));
      if outcome.SignUpFailed? {
        error := Some(outcome.message);
        isLoading := false;
        return;
      }
      if AlreadyRegistered(outcome) {
        error := Some(ExistsMessage);
        isLoading := false;
        return;
      }
      isSuccess := true;
      isLoading := false;
    }
  }
}
