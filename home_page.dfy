/** The start route (app/page.tsx) and the server-side guard of `/vault`
    (app/vault/page.tsx). */
module Home {
  import opened Common
  import opened PinAuth
  import opened Navigation
  import opened Identity

  /** The route the start page pushes for a given storage. */
  function StartRoute(s: Storage): (r: Route)
    ensures r == Pin <==> StoredSession(s)
    ensures r == Vault <==> !StoredSession(s)
  {
    if StoredSession(s) then Pin else Vault
  }

  /** The start page's effect: one read of the store, one route pushed. */
  method StartUp(store: CredentialStore, router: Router)
    modifies router
    ensures router.history == old(router.history) + [StartRoute(store.storage)]
    ensures store.storage == old(store.storage)
  {
    var stored := store.HasStoredSession();
    if stored {
      router.Push(Pin);
    } else {
      router.Push(Vault);
    }
  }

  /** `/vault` redirects to the login page unless the server knows the user. */
  function VaultRedirect(lookup: UserLookup): (r: Option<Route>)
    ensures r == Some(Login) <==> !lookup.SignedInUser?
    ensures r == None <==> lookup.SignedInUser?
  {
    if lookup.SignedInUser? then None else Some(Login)
  }

  /** Without a stored session the start page does not go to the login page
      directly: it goes to `/vault`, which sends a visitor without a
      server-side user on to the login page and shows the vault otherwise. */
  lemma ColdStartWithoutSession(s: Storage, lookup: UserLookup)
    requires !StoredSession(s)
    ensures StartRoute(s) == Vault && StartRoute(s) != Login
    ensures VaultRedirect(lookup) == Some(Login) <==> !lookup.SignedInUser?
  {
  }
}
