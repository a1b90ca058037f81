/** The profile menu (components/vault/profile-menu.tsx): sign-out that
    first drops the PIN records, and the "Enable PIN" / "Disable PIN"
    toggle driven by a flag read once from the store. */
module Profile {
  import opened PinAuth
  import opened Common
  import opened Navigation
  import opened Identity

  const DisablePinLabel: string := "Disable PIN"
  const EnablePinLabel: string := "Enable PIN"

  class ProfileMenu {
    var pinEnabled: bool
    const store: CredentialStore
    const router: Router
    const auth: AuthClient

    /** The flag starts as `isPinEnabled()` at mount. */
    constructor (store: CredentialStore, router: Router, auth: AuthClient)
      ensures pinEnabled == PinEnabled(store.storage)
      ensures this.store == store && this.router == router && this.auth == auth
    {
      var enabled := store.IsPinEnabled();
      pinEnabled := enabled;
      this.store := store;
      this.router := router;
      this.auth := auth;
    }

    /** The toggle item's label follows the local flag. */
    function PinToggleLabel(): (text: string)
      reads this
      ensures text == DisablePinLabel <==> pinEnabled
      ensures text == EnablePinLabel <==> !pinEnabled
    {
      if pinEnabled then DisablePinLabel else EnablePinLabel
    }

    /** Sign-out: drop the PIN records, sign out of the provider, go to the
        login page. A failed sign-out is ignored: the records are gone and
        the login page is pushed either way. */
    method HandleSignOut(signOutFails: bool)
      modifies store, auth, router
      ensures store.storage == Cleared(old(store.storage))
      ensures signOutFails ==> auth.user == old(auth.user)
      ensures !signOutFails ==> auth.user == None
      ensures router.history == old(router.history) + [Login]
    {
      store.DisablePin();
      var failed := auth.SignOut(signOutFails);
      router.Push(Login);
    }

    /** The toggle: disable in place, or send the user to log in again so
        that the setup dialog is offered. */
    method HandleTogglePin()
      modifies this, store, router
      ensures old(pinEnabled) ==>
        !pinEnabled && store.storage == Cleared(old(store.storage)) && router.history == old(router.history)
      ensures !old(pinEnabled) ==>
        !pinEnabled && store.storage == old(store.storage) && router.history == old(router.history) + [Login]
    {
      if pinEnabled {
        store.DisablePin();
        pinEnabled := false;
      } else {
        router.Push(Login);
      }
    }
  }
}
