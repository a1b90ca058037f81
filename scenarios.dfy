/** End-to-end runs of the PIN gate, wiring the pages together the way the
    application does: the start page, the `/vault` guard, the login page
    with its setup dialog, the PIN page, and the two sign-out buttons. A
    restart of the browser is a new router, a new store object over the
    same `localStorage` contents, and an identity client whose session may
    or may not have survived. */
module UnlockScenarios {
  import opened Common
  import opened PinAuth
  import opened PinInput
  import opened Navigation
  import opened Identity
  import opened Home
  import opened Login
  import opened PinSetup
  import opened PinUnlock
  import opened Profile
  import opened Sidebar

  /** The `/vault` page: the server asks the provider for the user and
      redirects to the login page when there is none or the lookup fails. */
  method OpenVault(auth: AuthClient, router: Router, failure: Option<string>)
    modifies router
    ensures router.history == old(router.history) +
      (if failure.None? && auth.user.Some? then [] else [Login])
  {
    var lookup := auth.GetUser(failure);
    var redirect := VaultRedirect(lookup);
    if redirect.Some? {
      router.Push(redirect.value);
    }
  }

  /** Types the same four digits into both steps of the setup dialog and
      submits it. */
  method EnterPinTwice(dialog: PinSetupDialog, pin: string) returns (callback: Callback)
    requires dialog.Valid() && dialog.step == Enter
    requires IsValidPin(pin)
    modifies dialog, dialog.store
    ensures callback == OnComplete
    ensures dialog.store.storage == SetupPinEffect(old(dialog.store.storage), dialog.store.digest, pin)
  {
    CleanPinOfCleaned(pin);
    dialog.HandlePinChange(pin);
    dialog.HandlePinChange(pin);
    callback := dialog.HandleSubmit();
  }

  /** A fresh device's first visit: the start page goes to `/vault`, which
      sends the visitor to the login page; signing in backs up the token
      and opens the PIN setup offer. */
  method FreshDeviceLogin(digest: Digest, userId: string, token: string)
    returns (store: CredentialStore, router: Router, auth: AuthClient, login: LoginPage, storedBefore: bool)
    ensures fresh(store) && fresh(router) && fresh(auth) && fresh(login)
    ensures login.store == store && login.router == router && login.auth == auth
    ensures store.digest == digest && store.storage == map[SessionStorageKey := token]
    ensures !storedBefore && router.history == [Vault, Login]
    ensures auth.user == Some(userId) && login.showPinSetup
  {
    store := new CredentialStore(digest, map[]);
    router := new Router();
    auth := new AuthClient(None);
    storedBefore := store.HasStoredSession();
    StartUp(store, router);
    OpenVault(auth, router, None);
    login := new LoginPage(store, router, auth);
    login.HandleLogin(SignedIn(userId, Some(Session(token))));
  }

  /** The first visit when the offer is taken up: after the PIN is set up
      the vault opens, and `localStorage` holds the hash, the flag and the
      token. */
  method FirstVisitWithPin(digest: Digest, userId: string, token: string, pin: string)
    returns (storedBefore: bool, visit: seq<Route>, saved: Storage)
    requires IsValidPin(pin)
    ensures !storedBefore && visit == [Vault, Login, Vault]
    ensures saved == SetupPinEffect(map[SessionStorageKey := token], digest, pin)
  {
    var store, router, auth, login;
    store, router, auth, login, storedBefore := FreshDeviceLogin(digest, userId, token);
    var dialog := new PinSetupDialog(store);
    var callback := EnterPinTwice(dialog, pin);
    login.HandlePinSetupComplete();
    OpenVault(auth, router, None);
    visit, saved := router.history, store.storage;
  }

  /** The first visit when the offer is skipped: the vault opens, and
      `localStorage` holds only the token. */
  method FirstVisitSkipped(digest: Digest, userId: string, token: string)
    returns (visit: seq<Route>, saved: Storage)
    ensures visit == [Vault, Login, Vault]
    ensures saved == map[SessionStorageKey := token]
  {
    var store, router, auth, login, storedBefore := FreshDeviceLogin(digest, userId, token);
    var dialog := new PinSetupDialog(store);
    var callback := dialog.Skip();
    login.HandlePinSetupSkip();
    OpenVault(auth, router, None);
    visit, saved := router.history, store.storage;
  }

  /** A restart with a PIN and a backup stored: the start page goes to the
      PIN page, which stays, and the right PIN pushes `/vault`. The vault
      itself opens only if the provider still holds a session (`session`
      is its user at the restart); otherwise `/vault` sends the user on to
      the login page, since no page reads the backed-up token. */
  method ReturnWithPin(digest: Digest, saved: Storage, pin: string, session: Option<string>)
    returns (stored: bool, visit: seq<Route>)
    requires StoredSession(saved) && VerifyPinResult(saved, digest, pin)
    requires IsValidPin(pin)
    ensures stored
    ensures visit == if session.Some? then [Pin, Vault] else [Pin, Vault, Login]
  {
    var store := new CredentialStore(digest, saved);
    var router := new Router();
    var auth := new AuthClient(session);
    stored := store.HasStoredSession();
    StartUp(store, router);
    var page := new PinUnlockPage(store, router);
    page.Mount();
    CleanPinOfCleaned(pin);
    page.HandlePinChange(pin);
    OpenVault(auth, router, None);
    visit := router.history;
  }

  /** A fresh device: the first visit goes through `/vault` to the login
      page; signing in backs up the token, the PIN is set up and the vault
      opens. After a restart the start page sends the user to the PIN page,
      and the same PIN opens the vault while the provider's session lasts;
      without it `/vault` still ends on the login page. */
  method SetUpPinThenUnlock(digest: Digest, userId: string, token: string, pin: string, sessionSurvives: bool)
    returns (storedBefore: bool, firstVisit: seq<Route>, storedAtRestart: bool, secondVisit: seq<Route>)
    requires DigestAssumptions(digest)
    requires IsValidPin(pin)
    ensures !storedBefore && storedAtRestart
    ensures firstVisit == [Vault, Login, Vault]
    ensures secondVisit == if sessionSurvives then [Pin, Vault] else [Pin, Vault, Login]
  {
    var saved;
    storedBefore, firstVisit, saved := FirstVisitWithPin(digest, userId, token, pin);
    SetupEnablesAndKeepsBackup(map[SessionStorageKey := token], digest, pin);
    SetupThenVerify(map[SessionStorageKey := token], digest, pin, pin);
    storedAtRestart, secondVisit := ReturnWithPin(digest, saved, pin, if sessionSurvives then Some(userId) else None);
  }

  /** As above, but the offer is skipped: the PIN stays disabled, and the
      next start goes to `/vault`, which shows the vault only while the
      provider's own session lasts and otherwise sends the user to the
      login page. The PIN page is never reached. */
  method SkipPinSetup(digest: Digest, userId: string, token: string, sessionSurvives: bool)
    returns (firstVisit: seq<Route>, enabledAtRestart: bool, secondVisit: seq<Route>)
    ensures firstVisit == [Vault, Login, Vault]
    ensures !enabledAtRestart
    ensures secondVisit == if sessionSurvives then [Vault] else [Vault, Login]
    ensures Pin !in secondVisit
  {
    var saved;
    firstVisit, saved := FirstVisitSkipped(digest, userId, token);
    var store := new CredentialStore(digest, saved);
    var router := new Router();
    var auth := new AuthClient(if sessionSurvives then Some(userId) else None);
    enabledAtRestart := store.IsPinEnabled();
    StartUp(store, router);
    OpenVault(auth, router, None);
    secondVisit := router.history;
  }

  /** A device with a PIN and a backed-up session. */
  method ConfiguredStore(digest: Digest, token: string, pin: string) returns (store: CredentialStore)
    requires IsValidPin(pin)
    ensures fresh(store) && store.digest == digest
    ensures store.storage == SetupPinEffect(map[SessionStorageKey := token], digest, pin)
  {
    store := new CredentialStore(digest, map[]);
    store.StoreSessionBackup(token);
    var outcome := store.SetupPin(pin);
  }

  /** A wrong PIN keeps the user on the PIN page with the field cleared and
      the error shown; "forgot PIN" then drops the PIN and the backup and
      goes to the login page. */
  method WrongPinThenForgot(digest: Digest, token: string, pin: string, wrong: string)
    returns (afterWrong: seq<Route>, fieldAfterWrong: string, errorAfterWrong: Option<string>,
             enabledAfterForgot: bool, backupAfterForgot: Option<string>, afterForgot: seq<Route>)
    requires DigestAssumptions(digest)
    requires IsValidPin(pin) && IsValidPin(wrong) && pin != wrong
    ensures afterWrong == [Pin]
    ensures fieldAfterWrong == "" && errorAfterWrong == Some(IncorrectPinMessage)
    ensures !enabledAfterForgot && backupAfterForgot == None
    ensures afterForgot == [Pin, Login]
  {
    var store := ConfiguredStore(digest, token, pin);
    SetupEnablesAndKeepsBackup(map[SessionStorageKey := token], digest, pin);
    SetupThenVerify(map[SessionStorageKey := token], digest, pin, wrong);
    var router := new Router();
    StartUp(store, router);
    var page := new PinUnlockPage(store, router);
    page.Mount();
    CleanPinOfCleaned(wrong);
    page.HandlePinChange(wrong);
    afterWrong, fieldAfterWrong, errorAfterWrong := router.history, page.pin, page.error;

    page.HandleForgotPin();
    enabledAfterForgot := store.IsPinEnabled();
    backupAfterForgot := store.GetSessionBackup();
    afterForgot := router.history;
  }

  /** The two sign-out buttons differ: after the sidebar's, the next start
      still offers the PIN page, but the right PIN only leads through
      `/vault` back to the login page, as the provider's session is gone;
      after the profile menu's, the PIN page is not offered at all. */
  method SignOutVariants(digest: Digest, userId: string, token: string, pin: string)
    returns (afterSidebar: seq<Route>, nextStartAfterSidebar: Route, unlockAfterSidebar: seq<Route>,
             afterMenu: seq<Route>, nextStartAfterMenu: Route)
    requires DigestAssumptions(digest)
    requires IsValidPin(pin)
    ensures afterSidebar == [Login] && nextStartAfterSidebar == Pin
    ensures unlockAfterSidebar == [Pin, Vault, Login]
    ensures afterMenu == [Login] && nextStartAfterMenu == Vault
  {
    SetupEnablesAndKeepsBackup(map[SessionStorageKey := token], digest, pin);
    SetupThenVerify(map[SessionStorageKey := token], digest, pin, pin);

    var store := ConfiguredStore(digest, token, pin);
    var router := new Router();
    var auth := new AuthClient(Some(userId));
    var sidebar := new VaultSidebar(router, auth);
    sidebar.HandleSignOut(false);
    afterSidebar := router.history;
    nextStartAfterSidebar := StartRoute(store.storage);
    var stored;
    stored, unlockAfterSidebar := ReturnWithPin(digest, store.storage, pin, auth.user);

    var store2 := ConfiguredStore(digest, token, pin);
    var router2 := new Router();
    var auth2 := new AuthClient(Some(userId));
    var menu := new ProfileMenu(store2, router2, auth2);
    menu.HandleSignOut(false);
    afterMenu := router2.history;
    ClearedForgetsEverything(SetupPinEffect(map[SessionStorageKey := token], digest, pin), digest, pin);
    nextStartAfterMenu := StartRoute(store2.storage);
  }
}
