/** The password login page (app/auth/login/page.tsx): after every
    successful sign-in it backs up the session token and offers PIN setup;
    either answer to the offer leads to the vault. */
module Login {
  import opened Common
  import opened PinAuth
  import opened Navigation
  import opened Identity

  const FallbackErrorMessage: string := "An error occurred"

  /** `error instanceof Error ? error.message : "An error occurred"`. */
  function ErrorText(thrown: Thrown): (text: string)
    ensures thrown.ErrorValue? ==> text == thrown.message
    ensures thrown.OtherValue? ==> text == FallbackErrorMessage
  {
    match thrown
    case ErrorValue(message) => message
    case OtherValue => FallbackErrorMessage
  }

  class LoginPage {
    var error: Option<string>
    var isLoading: bool
    var showPinSetup: bool
    const store: CredentialStore
    const router: Router
    const auth: AuthClient

    constructor (store: CredentialStore, router: Router, auth: AuthClient)
      ensures error == None && !isLoading && !showPinSetup
      ensures this.store == store && this.router == router && this.auth == auth
    {
      error := None;
      isLoading := false;
      showPinSetup := false;
      this.store := store;
      this.router := router;
      this.auth := auth;
    }

    /** Submitting the form, with the provider's answer given. */
    method HandleLogin(answer: SignInResult)
      modifies this, store, auth
      ensures answer.SignedIn? ==>
        && showPinSetup && error == None && isLoading && auth.user == Some(answer.userId)
        && store.storage == (if answer.session.Some?
                             then old(store.storage)[SessionStorageKey := answer.session.value.accessToken]
                             else old(store.storage))
      ensures answer.SignInFailed? ==>
        && error == Some(ErrorText(answer.thrown)) && !isLoading
        && showPinSetup == old(showPinSetup) && store.storage == old(store.storage)
        && auth.user == old(auth.user)
    {
      isLoading := true;
      error := None;
      var result := auth.SignInWithPassword(answer);
      match result {
        case SignInFailed(thrown) =>
          error := Some(ErrorText(thrown));
          isLoading := false;
        case SignedIn(_, session) =>
          if session.Some? {
            store.StoreSessionBackup(session.value.accessToken);
          }
          showPinSetup := true;
      }
    }

    /** The setup dialog's `onComplete`. */
    method HandlePinSetupComplete()
      modifies this, router
      ensures !showPinSetup && router.history == old(router.history) + [Vault]
      ensures error == old(error) && isLoading == old(isLoading)
    {
      showPinSetup := false;
      router.Push(Vault);
    }

    /** The setup dialog's `onSkip`. */
    method HandlePinSetupSkip()
      modifies this, router
      ensures !showPinSetup && router.history == old(router.history) + [Vault]
      ensures error == old(error) && isLoading == old(isLoading)
    {
      showPinSetup := false;
      router.Push(Vault);
    }
  }
}
