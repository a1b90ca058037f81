/** The PIN entry page (app/auth/pin/page.tsx): it sends a visitor without
    a stored session to the login page, cleans each keystroke, verifies
    automatically at four digits, and offers "forgot PIN". */
module PinUnlock {
  import opened Common
  import opened PinAuth
  import opened PinInput
  import opened Navigation

  const IncorrectPinMessage: string := "Incorrect PIN"

  class PinUnlockPage {
    var pin: string
    var error: Option<string>
    var isLoading: bool
    const store: CredentialStore
    const router: Router

    constructor (store: CredentialStore, router: Router)
      ensures pin == "" && error == None && !isLoading
      ensures this.store == store && this.router == router
    {
      pin := "";
      error := None;
      isLoading := false;
      this.store := store;
      this.router := router;
    }

    /** The mount effect: with no stored session, go to the login page. */
    method Mount()
      modifies router
      ensures router.history == old(router.history) + (if StoredSession(store.storage) then [] else [Login])
    {
      var stored := store.HasStoredSession();
      if !stored {
        router.Push(Login);
      }
    }

    /** A keystroke: clean the field, clear the error, and verify as soon
        as four digits are there. */
    method HandlePinChange(value: string)
      modifies this, router
      ensures var cleaned := CleanPin(value);
        && (|cleaned| < PinLength ==>
              pin == cleaned && error == None && isLoading == old(isLoading)
              && router.history == old(router.history))
        && (|cleaned| == PinLength && VerifyPinResult(store.storage, store.digest, cleaned) ==>
              pin == cleaned && error == None && !isLoading
              && router.history == old(router.history) + [Vault])
        && (|cleaned| == PinLength && !VerifyPinResult(store.storage, store.digest, cleaned) ==>
              pin == "" && error == Some(IncorrectPinMessage) && !isLoading
              && router.history == old(router.history))
    {
      var cleaned := CleanPin(value);
      pin := cleaned;
      error := None;
      if |cleaned| == PinLength {
        HandleUnlock(cleaned);
      }
    }

    /** Verify a candidate: route to the vault on success, otherwise show
        the error and clear the field. */
    method HandleUnlock(pinValue: string)
      modifies this, router
      ensures !isLoading
      ensures VerifyPinResult(store.storage, store.digest, pinValue) ==>
                error == None && pin == old(pin) && router.history == old(router.history) + [Vault]
      ensures !VerifyPinResult(store.storage, store.digest, pinValue) ==>
                error == Some(IncorrectPinMessage) && pin == "" && router.history == old(router.history)
    {
      isLoading := true;
      error := None;
      var isValid := store.VerifyPin(pinValue);
      if isValid {
        router.Push(Vault);
      } else {
        error := Some(IncorrectPinMessage);
        pin := "";
      }
      isLoading := false;
    }

    /** "Forgot PIN": drop every PIN record, then go to the login page. */
    method HandleForgotPin()
      modifies store, router
      ensures store.storage == Cleared(old(store.storage))
      ensures router.history == old(router.history) + [Login]
    {
      store.DisablePin();
      router.Push(Login);
    }
  }
}
