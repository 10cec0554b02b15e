/**
 * `LoginWithEmailViewModel.submit()`: how the login completion updates the
 * screen state. The request itself is not modelled; the completion receives
 * the decoded user and error.
 */
module LoginWithEmail {
  import opened Wrappers
  import opened Models

  class LoginWithEmailViewModel {
    var email: string
    var password: string
    var hasErrorMessage: bool
    var errorMessage: string
    var showForgotPassword: bool
    var goToLogin: bool
    /** The `currentUser` user-defaults record the completion writes (its JSON encoding is not modelled). */
    var savedUser: Option<User>

    constructor ()
      ensures email == "" && password == "" && !hasErrorMessage && errorMessage == ""
      ensures !showForgotPassword && !goToLogin && savedUser == None
    {
      email, password := "", "";
      hasErrorMessage, errorMessage := false, "";
      showForgotPassword, goToLogin := false, false;
      savedUser := None;
    }

    /**
     * The completion of `submit()`: an error wins over a user; a user clears
     * the error, is saved and flips `goToLogin`; with neither nothing changes.
     */
    method SubmitCompletion(user: Option<User>, error: Option<APIError>)
      modifies this
      ensures email == old(email) && password == old(password)
      ensures showForgotPassword == old(showForgotPassword)
      ensures error.Some? ==>
        hasErrorMessage && errorMessage == error.value.message &&
        goToLogin == old(goToLogin) && savedUser == old(savedUser)
      ensures error.None? && user.Some? ==>
        !hasErrorMessage && errorMessage == "" &&
        goToLogin == !old(goToLogin) && savedUser == user
      ensures error.None? && user.None? ==>
        hasErrorMessage == old(hasErrorMessage) && errorMessage == old(errorMessage) &&
        goToLogin == old(goToLogin) && savedUser == old(savedUser)
    {
      if error.Some? {
        hasErrorMessage := true;
        errorMessage := error.value.message;
      } else if user.Some? {
        hasErrorMessage := false;
        errorMessage := "";
        savedUser := user;
        goToLogin := !goToLogin;
      }
    }
  }
}
