# Vault PIN quick-unlock gate, modelled in Dafny

This project models a password vault web application built with Next.js and Supabase. It covers two parts of it.

**The PIN quick-unlock gate.** This is a device-local 4-digit PIN that the start page asks for instead of sending the user through `/vault`.
- The PIN page does not sign anyone in. A correct PIN only pushes `/vault`, and the server guard of `/vault` still needs the provider's own session; without it the user lands on the login page (`UnlockScenarios.ReturnWithPin`).
- The backed-up token is written at login, but no page reads it back; `getSessionBackup` has no caller.
- The credential store (`lib/pin-auth.ts`) keeps three `localStorage` records: the hex SHA-256 hash of the PIN, an enabled flag, and a backup of the session token.
- Several pages move the user between routes according to those records:
  - the start page;
  - the server guard of `/vault`;
  - the login page with its PIN setup dialog;
  - the PIN entry page;
  - the two sign-out buttons.

**The item helpers** used by the vault UI:
- the checklist operations of the add and edit dialogs and of the detail pane;
- tag parsing and joining;
- the rows the dialogs insert and update;
- the search over fetched items;
- the checklist progress, website line and tag badges of an item card.

How the model is laid out:
- `localStorage` is a `map<string, string>` field of the class `PinAuth.CredentialStore`.
- The SHA-256 digest is a function value the store is given.
  - `DigestAssumptions` says it yields 32 bytes and is injective on 4-digit PINs.
  - `DigestAssumptionsSatisfiable` shows that some function meets these assumptions.
- Each page or component with React state is a class. Its fields are the state variables and its methods are the handlers.
- The router is a `Router` object that records the routes pushed onto it.
- The identity provider is an `AuthClient` holding the signed-in user. Each answer Supabase would give is a parameter of the method or handler that awaits it: the sign-in result, a failed sign-out, a failed `getUser`, and the insert or update error.
- A browser restart is modelled as a new store object over the same `localStorage` contents.
- `UnlockScenarios` wires the pages together into complete runs.

After PIN setup is skipped, the next start routes to `/vault` (app/page.tsx:13-14). It reaches the login page only when the provider has no user (app/vault/page.tsx:9-10). `Home.ColdStartWithoutSession` and `UnlockScenarios.SkipPinSetup` state this behaviour.

## Model

| member | source | states |
|---|---|---|
| PinAuth.HexEncode | lib/pin-auth.ts:13 | two lower-case hex characters per digest byte |
| PinAuth.HexDecodeEncode | lib/pin-auth.ts:12-13 | the hex string of the digest bytes decodes back to exactly those bytes |
| PinAuth.HexEncodeInjective | lib/pin-auth.ts:12-13 | two digests have the same hex string if and only if they are equal |
| PinAuth.HashPin | lib/pin-auth.ts:8-14 | the stored hash has two characters per digest byte |
| PinAuth.SetupPinOutcome | lib/pin-auth.ts:17-19 | setup succeeds if and only if the input is exactly four ASCII digits; otherwise it fails with "PIN must be exactly 4 digits" |
| PinAuth.SetupPinEffect | lib/pin-auth.ts:16-24 | a rejected PIN changes nothing; an accepted one writes exactly its hash and the flag "true", and every other record is kept |
| PinAuth.Cleared | lib/pin-auth.ts:38-42 | the three records are absent and every other key is kept |
| PinAuth.CredentialStore.SetupPin | lib/pin-auth.ts:16-24 | the outcome and the new storage are those of the setup specification |
| PinAuth.CredentialStore.VerifyPin | lib/pin-auth.ts:26-32 | true exactly when a non-empty hash is stored and equals the candidate's hash |
| PinAuth.CredentialStore.IsPinEnabled | lib/pin-auth.ts:34-36 | true exactly when the flag holds the string "true" |
| PinAuth.CredentialStore.DisablePin | lib/pin-auth.ts:38-42 | the storage becomes that of `Cleared` |
| PinAuth.CredentialStore.HasStoredSession | lib/pin-auth.ts:44-46 | true exactly when the flag is enabled and a backup exists |
| PinAuth.CredentialStore.StoreSessionBackup | lib/pin-auth.ts:48-50 | only the backup record is written, with the given token |
| PinAuth.CredentialStore.GetSessionBackup | lib/pin-auth.ts:52-54 | the backup if one is stored, otherwise none |
| PinAuth.SetupThenVerify | lib/pin-auth.ts:21-31 | after setting up PIN p, a 4-digit PIN q verifies if and only if q == p, assuming the digest is injective |
| PinAuth.VerifyNeedsStoredHash | lib/pin-auth.ts:27-28 | without a stored hash nothing verifies, even with the flag set |
| PinAuth.VerifyIgnoresFlagAndBackup | lib/pin-auth.ts:26-32 | changing or removing the flag, or writing the backup, never changes the verification result |
| PinAuth.SetupEnablesAndKeepsBackup | lib/pin-auth.ts:22-23 | a successful setup enables the PIN, leaves the backup as it was, and stores a session exactly when a backup already existed |
| PinAuth.ClearedForgetsEverything | lib/pin-auth.ts:38-42 | after disabling, the PIN is not enabled, there is no backup, no session is stored and nothing verifies; disabling twice is the same as disabling once |
| PinAuth.StoredSessionTruthTable | lib/pin-auth.ts:44-46 | a session is stored if and only if the flag is enabled and a backup exists; each of the four combinations gives the expected answer |
| PinAuth.BackupRoundTrip | lib/pin-auth.ts:48-54 | reading the backup after storing token t gives t; the flag and the hash are unchanged |
| PinAuth.ConsistentPreserved | lib/pin-auth.ts:16-50 | each write (setup, disable, backup) keeps the invariant that an enabled PIN has a non-empty hash stored |
| PinAuth.DigestAssumptionsSatisfiable | lib/pin-auth.ts:11 | some digest function meets the 32-byte and injectivity assumptions |
| JsString.KeepDigits | app/auth/pin/page.tsx:25 | the result has only ASCII digits and is no longer than the input |
| JsString.KeepDigitsOfDigits | app/auth/pin/page.tsx:25 | a string of digits passes the digit filter unchanged |
| JsString.KeepDigitsIsSubsequence | app/auth/pin/page.tsx:25 | the filter keeps characters in their input order |
| JsString.KeepDigitsKeepsEveryDigit | app/auth/pin/page.tsx:25 | every digit of the input survives the filter, as many times as it occurs |
| JsString.Take | app/auth/pin/page.tsx:25 | `slice(0, n)` is the prefix of length min(n, length) |
| JsString.Trim | components/vault/add-item-dialog.tsx:47 | the result neither begins nor ends with ECMAScript whitespace and is no longer than the input |
| JsString.TrimCutsOnlyWhitespace | components/vault/add-item-dialog.tsx:47 | the trimmed value is a contiguous piece of the input and everything removed on either side is whitespace |
| JsString.TrimStartCuts | components/vault/add-item-dialog.tsx:47 | the start-trimmed value is a suffix of the input and the removed prefix is whitespace |
| JsString.TrimEndCuts | components/vault/add-item-dialog.tsx:47 | the end-trimmed value is a prefix of the input and the removed suffix is whitespace |
| JsString.TrimIdempotent | components/vault/add-item-dialog.tsx:79 | trimming twice is trimming once |
| JsString.TrimLeadingWhitespace | components/vault/add-item-dialog.tsx:79 | a leading whitespace character does not change the trimmed value |
| JsString.Split | components/vault/add-item-dialog.tsx:78 | at least one piece, and no piece contains the separator |
| JsString.JoinSplit | components/vault/add-item-dialog.tsx:78 | joining the pieces with the separator gives back the input |
| JsString.SplitAtSeparator | components/vault/add-item-dialog.tsx:78 | a separator-free prefix followed by the separator becomes the first piece |
| JsString.Join | components/vault/edit-item-dialog.tsx:27 | no parts give ""; otherwise the text starts with the first part |
| JsString.Lower | components/vault/vault-content.tsx:49 | same length, and each character is lowered |
| JsString.LowerIdempotent | components/vault/vault-content.tsx:49 | lowering twice is lowering once |
| JsString.IncludesAt | components/vault/vault-content.tsx:52-56 | `includes` holds if and only if the needle occurs at some offset |
| JsString.Includes | components/vault/vault-content.tsx:52-56 | a prefix of the text is included, and an included needle is no longer than the text |
| PinInput.CleanPin | app/auth/pin/page.tsx:25 | only ASCII digits, equal to the first digits of the input in order; the length is the input's digit count capped at four |
| PinInput.CleanPinIdempotent | app/auth/pin/page.tsx:25 | cleaning twice is cleaning once |
| PinInput.CleanPinIsSubsequence | app/auth/pin/page.tsx:25 | the cleaned value is an order-preserving subsequence of the input |
| PinInput.CleanedPinIsValid | components/auth/pin-setup-dialog.tsx:25 | a cleaned value passes the setup check if and only if it has four characters |
| PinUnlock.PinUnlockPage.Mount | app/auth/pin/page.tsx:17-22 | without a stored session the login route is pushed; otherwise nothing is pushed |
| PinUnlock.PinUnlockPage.HandlePinChange | app/auth/pin/page.tsx:24-33 | every keystroke clears the error. Below four digits the field holds the cleaned value and no route is pushed. At four digits the cleaned value is verified: a correct PIN pushes `/vault`; a wrong one shows "Incorrect PIN", clears the field and pushes nothing |
| PinUnlock.PinUnlockPage.HandleUnlock | app/auth/pin/page.tsx:35-54 | verification outcome: `/vault`, or "Incorrect PIN" with the field cleared; the loading flag ends false |
| PinUnlock.PinUnlockPage.HandleForgotPin | app/auth/pin/page.tsx:56-59 | the three records are dropped, then the login route is pushed |
| PinSetup.PinSetupDialog.HandlePinChange | components/auth/pin-setup-dialog.tsx:23-35 | in the enter step only the PIN changes, and the step becomes confirm exactly when it reaches four digits; in the confirm step only the confirmation changes |
| PinSetup.PinSetupDialog.HandleSubmit | components/auth/pin-setup-dialog.tsx:37-52 | a mismatch shows "PINs don't match", clears both fields, returns to the enter step and leaves the store untouched. Otherwise the store receives the PIN, and the dialog completes exactly when the PIN is valid; a rejected PIN shows the store's message. With the button enabled, a matching PIN always completes |
| PinSetup.PinSetupDialog.Skip | components/auth/pin-setup-dialog.tsx:89 | only `onSkip` fires; the store is not in the frame |
| PinSetup.SubmittedPinIsValid | components/auth/pin-setup-dialog.tsx:92 | a cleaned PIN equal to a four-digit cleaned confirmation passes the store's check |
| Login.ErrorText | app/auth/login/page.tsx:42 | the message of an `Error`, otherwise "An error occurred" |
| Login.LoginPage.HandleLogin | app/auth/login/page.tsx:23-45 | a sign-in stores the session's token as the backup when a session is returned, and leaves the storage as it was otherwise; in both cases it shows the setup offer. A failure shows the error, clears the loading flag and leaves the storage and the offer as they were |
| Login.LoginPage.HandlePinSetupComplete | app/auth/login/page.tsx:47-50 | the offer closes and `/vault` is pushed |
| Login.LoginPage.HandlePinSetupSkip | app/auth/login/page.tsx:52-55 | the offer closes and `/vault` is pushed |
| Profile.ProfileMenu.constructor | components/vault/profile-menu.tsx:26 | the local flag starts as the store's enabled flag |
| Profile.ProfileMenu.PinToggleLabel | components/vault/profile-menu.tsx:101 | "Disable PIN" exactly when the local flag is set, "Enable PIN" otherwise |
| Profile.ProfileMenu.HandleSignOut | components/vault/profile-menu.tsx:28-33 | the records are cleared and the login route is pushed in every case; the provider forgets the user unless the sign-out fails, in which case it keeps it |
| Profile.ProfileMenu.HandleTogglePin | components/vault/profile-menu.tsx:65-73 | when enabled: the records are cleared, the flag becomes false and no route is pushed. When disabled: the storage is unchanged and the login route is pushed |
| Sidebar.VaultSidebar.HandleSignOut | components/vault/vault-sidebar.tsx:32-36 | the login route is pushed in every case; the provider forgets the user unless the sign-out fails, in which case it keeps it; the credential store is outside the frame |
| Identity.AuthClient.SignInWithPassword | app/auth/login/page.tsx:30-34 | on success the provider holds that user; on failure nothing changes |
| Identity.AuthClient.GetUser | app/vault/page.tsx:8-9 | a failed lookup reports its error; otherwise the held user, or no user |
| Identity.AuthClient.SignOut | components/vault/profile-menu.tsx:31 | a failed sign-out reports failure and keeps the user; otherwise the user is forgotten |
| Home.StartRoute | app/page.tsx:10-16 | the PIN page if and only if a session is stored, `/vault` otherwise |
| Home.StartUp | app/page.tsx:10-16 | exactly one route, `StartRoute` of the storage, is pushed, and the storage is only read |
| Home.VaultRedirect | app/vault/page.tsx:8-13 | a redirect to login if and only if the server reports no user |
| Home.ColdStartWithoutSession | app/page.tsx:13-14 | without a stored session the start page goes to `/vault`, not to the login page, and login follows only when there is no server user |
| UnlockScenarios.OpenVault | app/vault/page.tsx:8-13 | the `/vault` guard pushes login exactly when the lookup fails or the provider holds no user |
| UnlockScenarios.EnterPinTwice | components/auth/pin-setup-dialog.tsx:23-52 | typing a valid PIN in both steps and submitting completes the dialog and performs the setup write |
| UnlockScenarios.FreshDeviceLogin | app/auth/login/page.tsx:23-45 | on a fresh device no session is stored; the first visit is `/vault`, then login; signing in leaves only the token backup and opens the offer |
| UnlockScenarios.FirstVisitWithPin | app/auth/login/page.tsx:23-50 | taking the offer ends on `/vault`, with the hash, the flag and the token stored |
| UnlockScenarios.FirstVisitSkipped | app/auth/login/page.tsx:52-55 | skipping the offer ends on `/vault`, with only the token stored |
| UnlockScenarios.ReturnWithPin | app/auth/pin/page.tsx:17-33 | after a restart with a stored session and the right PIN, the routes are the PIN page and then `/vault`; the `/vault` guard then sends the user to login unless the provider's session survived |
| UnlockScenarios.SetUpPinThenUnlock | app/auth/pin/page.tsx:24-43 | full run: no session on a fresh device; after setup and a restart a session is stored, the start page goes to the PIN page, and the same PIN reaches `/vault`, which stays open only when the provider's session survived and otherwise pushes login |
| UnlockScenarios.SkipPinSetup | app/page.tsx:10-16 | after skipping, the PIN stays disabled; the next start never reaches the PIN page, and it reaches login only when the provider's session is gone |
| UnlockScenarios.ConfiguredStore | lib/pin-auth.ts:16-50 | a backup followed by a setup leaves the storage of the setup specification |
| UnlockScenarios.WrongPinThenForgot | app/auth/pin/page.tsx:35-59 | a wrong PIN keeps the user on the PIN page with the field cleared and "Incorrect PIN" shown; "forgot PIN" then disables the PIN, removes the backup and pushes login |
| UnlockScenarios.SignOutVariants | components/vault/vault-sidebar.tsx:32-36 | after the sidebar's sign-out the next start still goes to the PIN page, and the right PIN leads through `/vault` to login because the provider's session is gone; after the profile menu's sign-out the next start goes to `/vault` |
| VaultItems.EntriesOf | components/vault/vault-item-detail.tsx:55 | a missing checklist reads as the empty list |
| VaultItems.AppendEntry | components/vault/add-item-dialog.tsx:46-51 | nothing if and only if the input trims to empty; otherwise the old entries followed by one uncompleted entry with the trimmed text |
| VaultItems.RemoveAt | components/vault/add-item-dialog.tsx:53-55 | an index in range removes exactly that entry and keeps the order of the rest; any other index changes nothing |
| VaultItems.ToggleAt | components/vault/add-item-dialog.tsx:57-59 | same length and texts; only the entry at the index has its `completed` flag flipped |
| VaultItems.ToggleTwice | components/vault/add-item-dialog.tsx:57-59 | toggling the same index twice restores the list |
| VaultItems.TrimNonEmpty | components/vault/add-item-dialog.tsx:79-80 | every result is non-empty and trimmed, and there are no more results than pieces |
| VaultItems.TrimNonEmptyCommaFree | components/vault/add-item-dialog.tsx:79-80 | comma-free pieces give comma-free results |
| VaultItems.TrimNonEmptySingle | components/vault/add-item-dialog.tsx:79-80 | one piece gives its trimmed value, or nothing when it trims to empty |
| VaultItems.TrimNonEmptyConcat | components/vault/add-item-dialog.tsx:79-80 | the map-and-filter works piece by piece: two runs of pieces give the results of the first followed by those of the second |
| VaultItems.ParseTags | components/vault/add-item-dialog.tsx:77-80 | every parsed tag is non-empty, trimmed and comma-free |
| VaultItems.ParseTagsOfPiece | components/vault/add-item-dialog.tsx:77-80 | a comma-free field parses to its trimmed value, or to no tag when it is blank |
| VaultItems.ParseTagsAtComma | components/vault/add-item-dialog.tsx:77-80 | a field with a first comma parses to the trimmed text before it (dropped when blank) followed by the tags of the text after it |
| VaultItems.TextOrNull | components/vault/add-item-dialog.tsx:86-89 | null if and only if the field is empty, otherwise the text |
| VaultItems.TagsColumn | components/vault/add-item-dialog.tsx:90 | null if and only if no tag remains after parsing, otherwise the parsed list |
| VaultItems.LoadedText | components/vault/edit-item-dialog.tsx:23-26 | empty if and only if the column is null or empty; otherwise the column's text |
| VaultItems.JoinTags | components/vault/edit-item-dialog.tsx:27 | no tags or an empty list give ""; otherwise the text starts with the first tag, and a single tag is the text itself |
| VaultItems.SplitJoinedTags | components/vault/edit-item-dialog.tsx:27 | splitting the `", "`-joined comma-free tags at commas gives the first tag, then each other tag with one space in front |
| VaultItems.TrimNonEmptyOfTags | components/vault/edit-item-dialog.tsx:67-70 | pieces that are tags, possibly with one leading space, trim back to exactly those tags |
| VaultItems.ParseJoinTags | components/vault/edit-item-dialog.tsx:67-70 | parsing the joined tags gives back the same list, in order, when every tag is non-empty, trimmed and comma-free |
| VaultItems.TextSurvivesEdit | components/vault/edit-item-dialog.tsx:22-30 | loading an optional text column into a field and saving it gives the text, or null when it was null or empty |
| VaultItems.TagsSurviveEdit | components/vault/edit-item-dialog.tsx:67-75 | loading valid tags into the field and saving gives the same list, or null when it was missing or empty |
| AddItem.BuildInsert | components/vault/add-item-dialog.tsx:82-92 | username and password are non-null only for a login item, notes only for a note, and `checklist_items` only for a checklist; empty text becomes null; tags are the parsed list, or null when none remain |
| AddItem.AddItemDialog.constructor | components/vault/add-item-dialog.tsx:22-32 | a blank login form |
| AddItem.AddItemDialog.HandleTypeChange | components/vault/add-item-dialog.tsx:34-44 | the new type, with every field, the checklist and its input reset to empty |
| AddItem.AddItemDialog.HandleAddChecklistItem | components/vault/add-item-dialog.tsx:46-51 | the list becomes the result of `AppendEntry` and the input is cleared; when the input is blank both stay; the other fields are unchanged |
| AddItem.AddItemDialog.HandleRemoveChecklistItem | components/vault/add-item-dialog.tsx:53-55 | the list becomes the result of `RemoveAt`, and the other fields are unchanged |
| AddItem.AddItemDialog.HandleToggleChecklistItem | components/vault/add-item-dialog.tsx:57-59 | the list becomes the result of `ToggleAt`, and the other fields are unchanged |
| AddItem.AddItemDialog.HandleSubmit | components/vault/add-item-dialog.tsx:61-110 | without a user: "You must be logged in", nothing inserted, the form kept. With a user: the row built from the form is inserted. An insert error is shown and the form is kept; success clears the form but keeps the type. The loading flag ends false |
| AddItem.AddItemDialog.ClearForm | components/vault/add-item-dialog.tsx:98-105 | every field, the checklist and its input are reset; the type is kept |
| EditItem.BuildUpdate | components/vault/edit-item-dialog.tsx:72-89 | always title, website and tags, with an empty URL or tag list as null. Username and password are present only for a login item, notes only for a note, the checklist only for a checklist |
| EditItem.UpdateAgreesWithInsert | components/vault/edit-item-dialog.tsx:72-89 | each column the update writes has the value the add dialog would insert from the same form; each column it omits is one the add dialog would insert as null |
| EditItem.LoadForm | components/vault/edit-item-dialog.tsx:22-30 | the title is the item's; each text field holds its column, or "" when the column is null; the tag field is the tags joined by ", ", or ""; the checklist is the stored list, or the empty list |
| EditItem.SaveUnchangedText | components/vault/edit-item-dialog.tsx:72-89 | saving a freshly loaded item writes back its title and text columns, with empty text stored as null |
| EditItem.SaveUnchangedChecklist | components/vault/edit-item-dialog.tsx:88 | saving a freshly loaded checklist item writes back its checklist, with a missing one stored as the empty list |
| EditItem.SaveUnchangedTags | components/vault/edit-item-dialog.tsx:67-76 | saving a freshly loaded item with valid tags writes back the same tags, or null when there were none |
| EditItem.EditItemDialog.constructor | components/vault/edit-item-dialog.tsx:21-33 | the form is loaded from the item |
| EditItem.EditItemDialog.OnItemChanged | components/vault/edit-item-dialog.tsx:35-43 | a new item reloads every form field; the pending input, the loading flag and the error stay |
| EditItem.EditItemDialog.HandleAddChecklistItem | components/vault/edit-item-dialog.tsx:45-50 | as in the add dialog |
| EditItem.EditItemDialog.HandleRemoveChecklistItem | components/vault/edit-item-dialog.tsx:52-54 | as in the add dialog |
| EditItem.EditItemDialog.HandleToggleChecklistItem | components/vault/edit-item-dialog.tsx:56-58 | as in the add dialog |
| EditItem.EditItemDialog.HandleSubmit | components/vault/edit-item-dialog.tsx:60-101 | the update built from the form is sent for the item's id; an error is shown; success is reported exactly when there was no error; the loading flag ends false |
| ItemDetail.ToggledCopy | components/vault/vault-item-detail.tsx:55-57 | the array copy with one entry reassigned equals `ToggleAt` |
| ItemDetail.VaultItemDetail.HandleChecklistToggle | components/vault/vault-item-detail.tsx:53-66 | sends the stored list (empty if missing) with the entry flipped; refreshes exactly when the update succeeds |
| ItemDetail.VaultItemDetail.HandleAddChecklistItem | components/vault/vault-item-detail.tsx:68-83 | blank input sends nothing; otherwise sends the stored list with the trimmed entry appended. The input is cleared and a refresh happens exactly when the update succeeds |
| ItemDetail.VaultItemDetail.HandleDeleteChecklistItem | components/vault/vault-item-detail.tsx:85-97 | sends the stored list without the entry; refreshes exactly when the update succeeds |
| Content.TypeConstraint | components/vault/vault-content.tsx:37-39 | no constraint for "all", otherwise the selected type |
| Content.Select | components/vault/vault-content.tsx:35-39 | every returned row is in the table and has the constrained type |
| Content.FilterMatching | components/vault/vault-content.tsx:50-58 | every kept item matches the query and is one of the fetched items |
| Content.MatchesQuery | components/vault/vault-content.tsx:50-57 | the empty query matches every item, and a title containing the query matches |
| Content.MatchesSomeText | components/vault/vault-content.tsx:50-57 | an item matches if and only if its title, a present username, URL or notes, or one of its tags, lower-cased, contains the query |
| Content.FilterSingle | components/vault/vault-content.tsx:50 | one item is kept exactly when it matches |
| Content.FilterConcat | components/vault/vault-content.tsx:50 | filtering two runs of items gives the results of the first followed by those of the second |
| Content.SearchFilter | components/vault/vault-content.tsx:46-59 | an empty query keeps the fetched list as it is; otherwise the items matching the lower-cased query |
| Content.NextItems | components/vault/vault-content.tsx:41-62 | a fetch error keeps the shown list; null data shows nothing; otherwise the search result over the data |
| Content.FilterKeepsExactlyMatching | components/vault/vault-content.tsx:50-57 | an item is kept if and only if it was fetched and matches in its title, username, URL, notes or some tag |
| Content.FilterIsSubsequence | components/vault/vault-content.tsx:50 | the filtered list is an order-preserving subsequence of the fetched list |
| Content.FilterIdempotent | components/vault/vault-content.tsx:50-58 | filtering twice is filtering once |
| Content.SearchIdempotent | components/vault/vault-content.tsx:48-59 | searching the search result again changes nothing |
| Content.EmptyQueryMatchesAll | components/vault/vault-content.tsx:46-48 | the empty query matches every item, so filtering with it keeps the list |
| Content.SearchIgnoresQueryCase | components/vault/vault-content.tsx:49 | a query and its lower-cased form give the same result |
| Content.ShownItemsHaveSelectedType | components/vault/vault-content.tsx:37-61 | with a type selected, every shown item has that type |
| ItemCard.CountCompleted | components/vault/vault-item-card.tsx:30 | the completed count is at most the list length |
| ItemCard.ChecklistProgress | components/vault/vault-item-card.tsx:27-32 | present if and only if the item is a checklist with a list; the total is the list length and the completed count is at most the total |
| ItemCard.CountCompletedConcat | components/vault/vault-item-card.tsx:30 | the count of two lists put together is the sum of their counts |
| ItemCard.CountAfterAppendEntry | components/vault/vault-item-card.tsx:29-31 | adding an entry keeps the completed count and raises the total by one |
| ItemCard.CountAfterToggle | components/vault/vault-item-card.tsx:29-31 | toggling an entry moves the completed count by exactly one, down if the entry was completed and up otherwise |
| ItemCard.CountAfterRemove | components/vault/vault-item-card.tsx:29-31 | removing an entry lowers the completed count by one exactly when that entry was completed |
| ItemCard.StripScheme | components/vault/vault-item-card.tsx:75 | one leading `http://` or `https://` is removed and nothing else |
| ItemCard.StripTrailingSlash | components/vault/vault-item-card.tsx:75 | one trailing slash is removed and nothing else |
| ItemCard.DisplayUrl | components/vault/vault-item-card.tsx:73-77 | shown if and only if the URL is present and non-empty, with the scheme stripped and then the trailing slash |
| ItemCard.DisplayOfDecoratedHost | components/vault/vault-item-card.tsx:75 | a host typed with any of the six decorations (no scheme, `http://` or `https://`, with or without a trailing slash) is displayed as the host itself |
| ItemCard.TagBadges | components/vault/vault-item-card.tsx:86-96 | shown if and only if there is a tag; at most three tags, in order; the `+n` badge appears exactly when there are more than three, with n the number left over |
| ItemCard.BadgesCoverTags | components/vault/vault-item-card.tsx:88-96 | the shown tags followed by the `+n` count account for every tag |

## Left out

- Supabase is represented only by the outcomes of its calls: sign-in, sign-out, `getUser`, and insert, update and select. Each outcome is a parameter of the method that makes the call. The error object of a failed sign-out is ignored by both sign-out buttons, so only the fact of failure is modelled. The provider's networking, sessions, server-side ordering by `updated_at` and row-level security are not modelled. `Content.Select` keeps the table order.
- SHA-256 and `TextEncoder` are not modelled. The digest is any function meeting `DigestAssumptions`, so no concrete hash value is computed. The hex encoding is concrete.
- `localStorage` quota and availability errors are not modelled, and neither are the `catch` branches they would reach ("Failed to verify PIN", "Failed to setup PIN"). Every storage write succeeds.
- Nothing runs asynchronously in the model. Each handler finishes before the next event. This includes `handleUnlock` being started without `await` from `handlePinChange`, and the loading flags that disable buttons while a call is pending.
- The 100 ms delay before the setup dialog's confirm step is an immediate step change. The 2-second "copied" indicator of the detail pane is not modelled.
- Rendering, dialogs opening and closing, the clipboard, item deletion with its `confirm()` prompt, and the export download are not modelled.
- Plain `onChange` setters of text fields are not modelled, nor HTML `required` on the title field. The title is inserted as typed.
- `getFaviconUrl` is not modelled because it relies on the platform URL parser. Locale date formatting is not modelled.
- `console.error` logging is not modelled.
- JsString.Lower: lowers only ASCII letters; JavaScript's `toLowerCase` applies full Unicode case mapping.
- JsString.Trim: the function's own contract says only that the result is trimmed and no longer than the input. That the removed parts are whitespace on either side of a contiguous piece is stated by `JsString.TrimCutsOnlyWhitespace`, built on `JsString.TrimStartCuts` and `JsString.TrimEndCuts`.
- JsString.Join: its own contract states only the empty case and the first part. The full inverse relation with `Split` is `JsString.JoinSplit`, and `VaultItems.ParseJoinTags` states what the edit dialog relies on.
- ItemDetail.VaultItemDetail.HandleChecklistToggle: requires an index within the stored list. The pane calls it only for a listed entry. For an index out of range, JavaScript would throw a `TypeError` when reading `.completed` of `undefined`, before any update is sent; that exception is not modelled.
- VaultItems.ParseJoinTags: holds only for tags that are non-empty, trimmed and comma-free. A stored tag containing a comma or edge whitespace would be split or trimmed on the next save.
