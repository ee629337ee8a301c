/**
 * The login form: signing in, recognising the service's "email not
 * confirmed" errors (case-insensitively) so the form can offer to resend the
 * confirmation email, and the resend flow itself.
 */
module Login {
  import opened Wrappers
  import opened Text

  const UnconfirmedMessage := "Please confirm your email address before signing in."
  const MissingEmailMessage := "Please enter your email address first"

  /** An error message that, lower-cased, mentions an unconfirmed email address. */
  predicate IsUnconfirmed(message: string) {
    Contains(Lower(message), "email not confirmed") || Contains(Lower(message), "email confirmation")
  }

  /** The classification ignores letter case: messages that agree once lower-cased are classified alike. */
  lemma UnconfirmedIgnoresCase(a: string, b: string)
    requires Lower(a) == Lower(b)
    ensures IsUnconfirmed(a) == IsUnconfirmed(b)
    ensures IsUnconfirmed(Lower(a)) == IsUnconfirmed(a)
  {
    LowerIdempotent(a);
  }

  /** The form's state. */
  class LoginForm {
    var email: string
    var password: string
    var error: Option<string>
    var isLoading: bool
    var showResendOption: bool
    var resendLoading: bool
    var resendSuccess: bool

    /** The initial state; an `error` query parameter, when present and non-empty, is shown. */
    constructor(urlError: Option<string>)
      ensures email == "" && password == ""
      ensures error == (if Truthy(urlError) then urlError else None)
      ensures !isLoading && !showResendOption && !resendLoading && !resendSuccess
    {
      email, password := "", "";
      error := if Truthy(urlError) then urlError else None;
      isLoading, showResendOption, resendLoading, resendSuccess := false, false, false, false;
    }

    /** The resend button is offered only with the option set and an address typed in. */
    predicate ResendButtonShown()
      reads this
    {
      showResendOption && email != ""
    }

    /**
     * `handleLogin`. `outcome` is the service's error message, or `None` when
     * the sign-in succeeded. Returns the navigation, if any.
     */
    method HandleLogin(outcome: Option<string>) returns (navigation: Option<string>)
      modifies this
      ensures !resendSuccess
      ensures outcome.None? ==>
                navigation == Some("/dashboard") && error.None? && !showResendOption && isLoading
      ensures outcome.Some? && IsUnconfirmed(outcome.value) ==>
                navigation.None? && error == Some(UnconfirmedMessage) && showResendOption && !isLoading
      ensures outcome.Some? && !IsUnconfirmed(outcome.value) ==>
                navigation.None? && error == outcome && !showResendOption && !isLoading
      ensures email == old(email) && password == old(password) && resendLoading == old(resendLoading)
    {
      isLoading := true;
      error := None;
      showResendOption := false;
      resendSuccess := false;
      navigation := None;
      if outcome.Some? {
        if IsUnconfirmed(outcome.value) {
          error := Some(UnconfirmedMessage);
          showResendOption := true;
        } else {
          error := outcome;
        }
        isLoading := false;
        return;
      }
      navigation := Some("/dashboard");
    }

    /**
     * `handleResendConfirmation`. `origin` is the page's origin and `outcome`
     * the service's error message, or `None` on success. Returns the address
     * the confirmation was requested for, if the call was made.
     */
    method HandleResend(origin: string, outcome: Option<string>) returns (sentTo: Option<string>, redirectTo: Option<string>)
      modifies this
      ensures email == "" ==>
                sentTo.None? && error == Some(MissingEmailMessage)
                && showResendOption == old(showResendOption) && resendSuccess == old(resendSuccess)
                && resendLoading == old(resendLoading)
      ensures email != "" ==> sentTo == Some(email) && redirectTo == Some(origin + "/auth/callback") && !resendLoading
      ensures email != "" && outcome.None? ==> error.None? && resendSuccess && !showResendOption
      ensures email != "" && outcome.Some? ==>
                error == outcome && resendSuccess == old(resendSuccess) && showResendOption == old(showResendOption)
      ensures email == old(email) && password == old(password) && isLoading == old(isLoading)
    {
      sentTo, redirectTo := None, None;
      if email == "" {
        error := Some(MissingEmailMessage);
        return;
      }
      resendLoading := true;
      error := None;
      sentTo, redirectTo := Some(email), Some(origin + "/auth/callback");
      resendLoading := false;
      if outcome.Some? {
        error := outcome;
      } else {
        resendSuccess := true;
        showResendOption := false;
      }
    }
  }
}
