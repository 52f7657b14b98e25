# Contact manager services, modelled in Dafny

This project models the core of an AngularJS contact manager (`app.js`).
Everything the app keeps lives in the browser's `localStorage`. The model covers:

- **`UserService`** (`Users.UserService`). It holds the list of users, each with an email, a password and an ordered contact list. It also holds the current user, modelled as an index into that list because the source aliases the list entry, and the single-slot contact being edited. Sign-up, sign-in, saving and deleting contacts and the current-user/current-contact setters are methods. Each method states the new list, the new pointers and what it wrote to the store.
- **`AuthService`** (`Auth.AuthService`). It holds a cached `loggedIn` flag, mirrored under the key `"loggedIn"` as the text `"true"`/`"false"`.
- **The `$routeChangeStart` listener** (`Routing`). Its redirect decision is the pure function `GuardDecision`. The listener body, including the refresh of the current user, is the method `RunGuard`.
- **The sign-up form's input checks** (`SignUpForm.CheckForm`).
- **`localStorage`** (`Storage.LocalStorage`). It is a map from keys to stored values. Entries hold the value their JSON text encodes (`Text`, `UserList`, `UserEntry`, `ContactEntry`), not the text itself.

Contacts are objects (`Directory.Contact`). `saveContact` assigns a new contact's `id` in place. `deleteContact` finds a contact by identity (`indexOf`), and an edit finds it by `id` (`findIndex`). So a copy with equal fields is a different contact, as in the source. What is written under `"users"` is `Directory.Snapshot`: a value copy of every user and contact at the time of writing.

`getCurrentContact` is the read of the `currentContact` field. The `Scenario` module holds clients that drive a session (sign up twice, sign in, add, edit, delete, log out, navigate) using only the contracts.

## Model

| member | source | states |
|---|---|---|
| `Directory.FindUser` | app.js:271-273 | the index of the first user whose email equals the argument, or none when no user has it |
| `Directory.AppendFreshEmail` | app.js:287-294 | appending a user with an unused email keeps emails pairwise distinct, and looking that email up then finds the new last user |
| `Directory.FindOwnEmail` | app.js:271-273 | when emails are distinct, looking up a user's own email finds that very user |
| `Directory.IndexOf` | app.js:320 | -1 exactly when the object is absent; otherwise the first position holding it |
| `Directory.WithoutFirst` | app.js:320-322 | the list after the `splice` at `indexOf`: unchanged when the object is absent, one shorter when it is present |
| `Directory.WithoutFirstRemovesOne` | app.js:317-325 | the splice at `indexOf` removes exactly one occurrence (multiset minus one), shrinks the list by one when present, keeps the others in order, and leaves the list alone when absent |
| `Directory.WithoutFirstTwice` | app.js:317-325 | when the object occurs at most once, after one removal it is gone and a second removal changes nothing |
| `Directory.FindById` | app.js:307-309 | the first position whose contact has the given id, or -1 when none has it |
| `Directory.ReplaceById` | app.js:307-312 | the list after an edit keeps its length, and each position holds either its old contact or the edited one in place of a contact with the same id |
| `Directory.ReplaceByIdChangesOnlyFirstMatch` | app.js:306-313 | an edit keeps the length, replaces only the first contact with a matching id, and leaves the list unchanged when no id matches |
| `Directory.Snapshot` | app.js:267-269 | the stored directory has one record per user, in order, with the same email, password and a copy of each contact's id and fields |
| `Auth.StoredFlag` | app.js:356-360 | whether the stored `"loggedIn"` entry is `"true"`; a missing entry reads as false |
| `Auth.AuthService.constructor` | app.js:356 | the cached flag starts as "the stored value is `"true"`" (false when absent) |
| `Auth.AuthService.IsLoggedIn` | app.js:359-362 | re-reads the store; returns and caches whether the stored value is `"true"`; writes nothing |
| `Auth.AuthService.LogIn` | app.js:363-366 | sets the flag, stores `"true"`, so a following `IsLoggedIn` returns true |
| `Auth.AuthService.LogOut` | app.js:367-370 | clears the flag, stores `"false"`, so a following `IsLoggedIn` returns false |
| `Auth.AuthService.RequireLogin` | app.js:371-375 | asks for `/sign-in` exactly when the cached flag is false, and asks for nothing otherwise |
| `Users.Refreshed` | app.js:348 | re-resolving the current user by email never loses it, lands on the first user with the same email (never a later one), and gives nobody when nobody was current |
| `Users.RefreshedKeepsUser` | app.js:346-351 | when emails are distinct, re-resolving keeps the very same user current |
| `Users.UserService.constructor` | app.js:262-265 | starts from the loaded directory, the loaded current user (looked up by email) and the loaded staged contact |
| `Users.UserService.CurrentUserContacts` | app.js:296-298 | the current user's contact list, and `[]` when nobody is signed in |
| `Users.UserService.SaveUsers` | app.js:267-269 | the `"users"` entry becomes the snapshot of the in-memory directory; no other entry changes |
| `Users.UserService.SignIn` | app.js:276-285 | succeeds iff the first user with the email has exactly that password; on success that user becomes current, the flag is set and `"loggedIn"`/`"currentUser"` are stored; on failure nothing changes |
| `Users.UserService.SignUp` | app.js:287-294 | fails and changes nothing when some user has the email; otherwise appends `{email, password, []}`, stores the directory and returns true; emails stay distinct; the new user is what the email now finds |
| `Users.UserService.SaveContact` | app.js:300-315 | with no current user nothing changes; a new contact gets the given id and is appended to the current user's list only; an edit replaces the first contact with the same id (nothing when none); other users are untouched; only the contact's `id` may change, never its other fields; the directory is stored |
| `Users.UserService.DeleteContact` | app.js:317-325 | removes the first occurrence of that very object from the current user's list and stores the directory; no current user or an absent object changes nothing, including the store |
| `Users.UserService.SetCurrentContact` | app.js:327-330 | the staged contact becomes the given one and its copy is stored under `"currentContact"` |
| `Users.UserService.ClearCurrentContact` | app.js:336-339 | nothing is staged any more and `"currentContact"` is removed from the store |
| `Users.UserService.SetCurrentUser` | app.js:341-344 | the current user becomes the first user with the email, or nobody; that choice is stored under `"currentUser"` |
| `Users.UserService.SetCurrentUserContacts` | app.js:346-351 | with a current user, re-resolves it by email and stores it; keeps "somebody is current" unchanged; does nothing when nobody is current |
| `Routing.GuardDecision` | app.js:47-60 | redirects to `/sign-in` iff the route needs a login and nobody is logged in; redirects to `/contact-list` iff the route is `/sign-in` and somebody is logged in; otherwise no redirect |
| `Routing.RedirectsExclusive` | app.js:47-60 | the two redirect conditions never hold together |
| `Routing.RunGuard` | app.js:46-65 | the listener body: its redirect is `GuardDecision` of the route and the stored flag; the cached flag is refreshed; when logged in, the current user is re-resolved as `SetCurrentUserContacts` does |
| `Routing.OnRouteChangeStartAsWritten` | app.js:46-65 | the listener as registered: its parameter receives the event object, whose `$$route` is undefined, so it never redirects; it still refreshes the flag and, when logged in, re-resolves and stores the current user, leaving the directory as it was |
| `Routing.OnRouteChangeStart` | app.js:46-65 | the listener with the parameters AngularJS passes, `(event, next)`: redirects as `GuardDecision` of the next route says; refreshes the flag; when logged in, re-resolves and stores the current user; the directory and every other store entry stay as they were |
| `Routing.MiswiredGuardNeverRedirects` | app.js:46-60 | with the event in place of the next route, the decision is "no redirect" for every login state |
| `Routing.MiswiredGuardAdmitsLoggedOutVisit` | app.js:46-60 | at the level of the guard, a logged-out visit to `/contact-list` is sent to `/sign-in` by the intended guard and not by the wired one |
| `Routing.MiswiredGuardKeepsLoggedInOnSignIn` | app.js:54-60 | a logged-in visit to `/sign-in` is sent on to `/contact-list` by the intended guard and left on the sign-in page by the wired one |
| `SignUpForm.CheckForm` | app.js:98-106 | a missing or empty email or password is reported first; otherwise differing password and confirmation are reported; otherwise the non-empty email and password go on to `signUp` |

## Left out

- JSON text. The store holds the values that `JSON.stringify` would encode. Parsing, malformed text and `JSON.parse` failures are not modelled.
- Storing an unknown current user. `setCurrentUser` with an unknown email stores `JSON.stringify(undefined)`, which becomes the text `"undefined"` that the next page load cannot parse. The model records it as `UserEntry(None)`, and the failing reload is not modelled.
- Loading at start-up. `Users.UserService.constructor` takes the already-parsed directory, current user email and staged contact as parameters. The source's rehydrated `currentUser` is a detached copy of the stored user until the next `setCurrentUserContacts` re-points it into the list. The model resolves it to an index at once.
- `Users.UserService.SaveContact`: `Date.now().toString()` is the parameter `newId`. The source does not ensure ids are unique, so the model proves nothing about uniqueness.
- `Users.UserService.CurrentUserContacts`: the source returns the live array, which a controller keeps and sees later changes through. The model returns the list's value at the time of the call.
- Start-up in `app.run` (app.js:36-44). The extra `isLoggedIn()` call and the lookup of the never-written `"loggedInUserEmail"` key are not modelled.
- Navigation. `$location.path` is modelled as the redirect a method returns. That a path change inside `$routeChangeStart` starts another route change is not modelled.
- Route configuration (app.js:3-34). Routes appear only as `Routing.RouteDef` values. The `resolve` hooks that call `requireLogin` on the two protected routes are not modelled.
- Controllers, `$scope` bindings and the `contactCard` directive are not modelled. `SignUpForm.CheckForm` stands for the sign-up form's checks.
- The modal dialog, the `FileReader` image loading, the `alasql` export and the commented-out controller are not modelled. The modal passes `angular.copy(contact)` to `deleteContact`. By `Users.UserService.DeleteContact`'s contract, that copy is not in the list, so the modal's delete removes nothing.
- Password hashing. Passwords are compared as plain strings, as the source stores them.

## Findings

| source | as written | input that shows it | evidently intended | confidence | as-written member | corrected member |
|---|---|---|---|---|---|---|
| app.js:46-60 | the `$routeChangeStart` listener is `function (next)`, but AngularJS passes `(event, next, current)`, so `next.$$route` reads the event object's undefined `$$route` and neither redirect ever fires | a logged-in visit to `/sign-in` stays on the sign-in page | `function (event, next)`, so that such a visit is sent on to `/contact-list` | high, not executed | `Routing.OnRouteChangeStartAsWritten` (with `Routing.MiswiredGuardKeepsLoggedInOnSignIn`) | `Routing.OnRouteChangeStart` |

The other redirect is lost in the guard too (`Routing.MiswiredGuardAdmitsLoggedOutVisit`), but a user does not see that loss. Both protected routes call `requireLogin` in their `resolve` (app.js:16-19, 26-29). That call reads the cached flag, and the listener's unconditional `isLoggedIn()` at app.js:62 has just refreshed it. So a logged-out visit to `/contact-list` is still sent to `/sign-in`.

## Notes

- `signIn` returns true only when the password matches, not merely when the email is found (app.js:278).
- The staged contact is persisted under `"currentContact"` and removed from the store on clear (app.js:329, 338).
- Contact ids come from the clock and are not guaranteed unique (app.js:304).
- Delete matches a contact by identity (app.js:320). Edit matches it by id (app.js:307-309).
