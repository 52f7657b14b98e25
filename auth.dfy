/**
 * `AuthService`: a logged-in flag cached in memory and mirrored to the store
 * under "loggedIn" as the text "true" or "false".
 */
module Auth {
  import opened Common
  import opened Storage

  const SignInPath: string := "/sign-in"

  /** What `localStorage.getItem("loggedIn") === "true"` yields; a missing entry reads as false. */
  predicate StoredFlag(items: map<string, Stored>): (b: bool)
    ensures LoggedInKey !in items ==> !b
    ensures b ==> items[LoggedInKey] == Text("true")
  {
    LoggedInKey in items && items[LoggedInKey] == Text("true")
  }

  class AuthService {
    const store: LocalStorage
    var loggedIn: bool

    constructor (store: LocalStorage)
      ensures this.store == store
      ensures loggedIn == StoredFlag(store.items)
    {
      this.store := store;
      loggedIn := StoredFlag(store.items);
    }

    /** Re-reads the flag from the store, caches it and returns it. */
    method IsLoggedIn() returns (b: bool)
      modifies this
      ensures b == StoredFlag(store.items) && loggedIn == b
      ensures store.items == old(store.items)
    {
      loggedIn := StoredFlag(store.items);
      b := loggedIn;
    }

    method LogIn()
      modifies this, store
      ensures loggedIn && StoredFlag(store.items)
      ensures store.items == old(store.items)[LoggedInKey := Text("true")]
    {
      loggedIn := true;
      store.SetItem(LoggedInKey, Text("true"));
    }

    method LogOut()
      modifies this, store
      ensures !loggedIn && !StoredFlag(store.items)
      ensures store.items == old(store.items)[LoggedInKey := Text("false")]
    {
      loggedIn := false;
      store.SetItem(LoggedInKey, Text("false"));
    }

    /** The navigation `requireLogin` asks for: the sign-in route exactly when the cached flag is off. */
    method RequireLogin() returns (redirect: Option<string>)
      ensures redirect.Some? <==> !loggedIn
      ensures redirect.Some? ==> redirect.value == SignInPath
    {
      redirect := None;
      if !loggedIn {
        redirect := Some(SignInPath);
      }
    }
  }
}
