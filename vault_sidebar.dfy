/** The sidebar's sign-out button (components/vault/vault-sidebar.tsx).
    Unlike the profile menu's, it does not touch the PIN records. */
module Sidebar {
  import opened Common
  import opened Navigation
  import opened Identity

  class VaultSidebar {
    const router: Router
    const auth: AuthClient

    constructor (router: Router, auth: AuthClient)
      ensures this.router == router && this.auth == auth
    {
      this.router := router;
      this.auth := auth;
    }

    /** Sign out of the provider and go to the login page, whether or not
        the sign-out failed; the credential store is not in its frame, so
        every PIN record survives. */
    method HandleSignOut(signOutFails: bool)
      modifies auth, router
      ensures signOutFails ==> auth.user == old(auth.user)
      ensures !signOutFails ==> auth.user == None
      ensures router.history == old(router.history) + [Login]
    {
      var failed := auth.SignOut(signOutFails);
      router.Push(Login);
    }
  }
}
