/**
 * `UserService`: the in-memory directory, the current user and the contact
 * staged for editing, with the store rewritten after each change.
 */
module Users {
  import opened Common
  import opened Storage
  import opened Directory
  import opened Auth

  /** The user `setCurrentUserContacts` re-resolves: the first user with the current user's email. */
  function Refreshed(users: seq<User>, current: Option<nat>): (r: Option<nat>)
    requires current.Some? ==> current.value < |users|
    ensures r.Some? <==> current.Some?
    ensures r.Some? ==> r.value <= current.value && users[r.value].email == users[current.value].email
  {
    if current.Some? then FindUser(users, users[current.value].email) else None
  }

  /** With distinct emails, refreshing keeps the very same user current. */
  lemma RefreshedKeepsUser(users: seq<User>, current: Option<nat>)
    requires current.Some? ==> current.value < |users|
    ensures DistinctEmails(users) ==> Refreshed(users, current) == current
  {
    if current.Some? && DistinctEmails(users) {
      FindOwnEmail(users, current.value);
    }
  }

  class UserService {
    const auth: AuthService
    const store: LocalStorage
    var users: seq<User>
    var current: Option<nat>       // index of `currentUser` in `users`
    var currentContact: Contact?   // `getCurrentContact` reads this field

    ghost predicate Valid()
      reads this
    {
      store == auth.store &&
      (current.Some? ==> current.value < |users|)
    }

    /**
     * Starts from what was loaded from the store: the directory, the current
     * user's email (looked up in the directory) and the staged contact.
     */
    constructor (auth: AuthService, users: seq<User>, currentEmail: Option<string>, currentContact: Contact?)
      ensures Valid()
      ensures this.auth == auth && this.users == users && this.currentContact == currentContact
      ensures current == if currentEmail.Some? then FindUser(users, currentEmail.value) else None
    {
      this.auth := auth;
      store := auth.store;
      this.users := users;
      current := if currentEmail.Some? then FindUser(users, currentEmail.value) else None;
      this.currentContact := currentContact;
    }

    /** `getCurrentUserContacts`: the current user's list, or [] when nobody is signed in. */
    function CurrentUserContacts(): (cs: seq<Contact>)
      requires Valid()
      reads this
      ensures current.None? ==> cs == []
      ensures current.Some? ==> cs == users[current.value].contacts
    {
      if current.Some? then users[current.value].contacts else []
    }

    method SaveUsers()
      modifies store
      ensures store.items == old(store.items)[UsersKey := UserList(Snapshot(users))]
    {
      var saved := Snapshot(users);
      store.SetItem(UsersKey, UserList(saved));
      // Writing the store touches no contact, so the snapshot taken before still describes the directory.
      assert saved == Snapshot(users);
    }

    /**
     * Signs in when the first user with `email` has exactly `password`: that
     * user becomes current, the flag is set and the user is stored as current.
     * Otherwise nothing changes.
     */
    method SignIn(email: string, password: string) returns (ok: bool)
      requires Valid()
      modifies this, auth, store
      ensures Valid()
      ensures users == old(users) && currentContact == old(currentContact)
      ensures ok <==> FindUser(users, email).Some? && users[FindUser(users, email).value].password == password
      ensures ok ==> current == FindUser(users, email) && auth.loggedIn &&
                     store.items == old(store.items)[LoggedInKey := Text("true")]
                                    [CurrentUserKey := UserEntry(Some(UserRecordOf(users[current.value])))]
      ensures !ok ==> current == old(current) && auth.loggedIn == old(auth.loggedIn) && store.items == old(store.items)
    {
      var found := FindUser(users, email);
      ok := found.Some? && users[found.value].password == password;
      if ok {
        current := found;
        auth.LogIn();
        store.SetItem(CurrentUserKey, UserEntry(Some(UserRecordOf(users[found.value]))));
      }
    }

    /**
     * Registers `email` unless some user already has it: the new user, with no
     * contacts, goes at the end and the directory is stored.
     */
    method SignUp(email: string, password: string) returns (ok: bool)
      requires Valid()
      modifies this, store
      ensures Valid()
      ensures current == old(current) && currentContact == old(currentContact)
      ensures ok <==> FindUser(old(users), email).None?
      ensures ok ==> users == old(users) + [User(email, password, [])] &&
                     store.items == old(store.items)[UsersKey := UserList(Snapshot(users))]
      ensures !ok ==> users == old(users) && store.items == old(store.items)
      ensures DistinctEmails(old(users)) ==> DistinctEmails(users)
      ensures ok ==> FindUser(users, email) == Some(|old(users)|)
    {
      if FindUser(users, email).Some? {
        return false;
      }
      AppendFreshEmail(users, email, password);
      users := users + [User(email, password, [])];
      SaveUsers();
      ok := true;
    }

    /**
     * With a current user: a new contact (`editing` false) gets `newId` as its
     * id and goes at the end of the list; an edited one replaces the first
     * contact with the same id, if any. The directory is stored either way.
     * Without a current user nothing changes.
     */
    method SaveContact(contact: Contact, editing: bool, newId: string)
      requires Valid()
      modifies this, store, contact`id
      ensures Valid()
      ensures contact.details == old(contact.details)
      ensures current == old(current) && currentContact == old(currentContact)
      ensures old(current).None? ==> users == old(users) && store.items == old(store.items) && contact.id == old(contact.id)
      ensures editing ==> contact.id == old(contact.id)
      ensures old(current).Some? && !editing ==>
                contact.id == Some(newId) &&
                users == old(users)[current.value := old(users)[current.value].(contacts := old(CurrentUserContacts()) + [contact])]
      ensures old(current).Some? && editing ==>
                users == old(users)[current.value := old(users)[current.value].(contacts := old(ReplaceById(CurrentUserContacts(), contact)))]
      ensures old(current).Some? ==> store.items == old(store.items)[UsersKey := UserList(Snapshot(users))]
    {
      if current.None? {
        return;
      }
      var i := current.value;
      var cs := users[i].contacts;
      if !editing {
        contact.id := Some(newId);
        users := users[i := users[i].(contacts := cs + [contact])];
      } else {
        var k := FindById(cs, contact.id);
        if k != -1 {
          users := users[i := users[i].(contacts := cs[k := contact])];
        }
      }
      SaveUsers();
    }

    /**
     * Removes the first occurrence of this very contact object from the current
     * user's list and stores the directory; nothing changes when there is no
     * current user or the object is not in the list.
     */
    method DeleteContact(contact: Contact)
      requires Valid()
      modifies this, store
      ensures Valid()
      ensures current == old(current) && currentContact == old(currentContact)
      ensures old(current).None? || contact !in old(CurrentUserContacts()) ==>
                users == old(users) && store.items == old(store.items)
      ensures old(current).Some? && contact in old(CurrentUserContacts()) ==>
                users == old(users)[current.value := old(users)[current.value].(contacts := WithoutFirst(old(CurrentUserContacts()), contact))] &&
                store.items == old(store.items)[UsersKey := UserList(Snapshot(users))]
    {
      if current.None? {
        return;
      }
      var i := current.value;
      var cs := users[i].contacts;
      var k := IndexOf(cs, contact);
      if k != -1 {
        users := users[i := users[i].(contacts := cs[..k] + cs[k + 1..])];
        SaveUsers();
      }
    }

    method SetCurrentContact(contact: Contact)
      requires Valid()
      modifies this, store
      ensures Valid()
      ensures currentContact == contact && users == old(users) && current == old(current)
      ensures store.items == old(store.items)[CurrentContactKey := ContactEntry(RecordOf(contact))]
    {
      currentContact := contact;
      store.SetItem(CurrentContactKey, ContactEntry(RecordOf(contact)));
    }

    method ClearCurrentContact()
      requires Valid()
      modifies this, store
      ensures Valid()
      ensures currentContact == null && users == old(users) && current == old(current)
      ensures store.items == old(store.items) - {CurrentContactKey}
    {
      currentContact := null;
      store.RemoveItem(CurrentContactKey);
    }

    /** Makes the first user with `email` current, or nobody when there is none, and stores that choice. */
    method SetCurrentUser(email: string)
      requires Valid()
      modifies this, store
      ensures Valid()
      ensures users == old(users) && currentContact == old(currentContact)
      ensures current == FindUser(users, email)
      ensures store.items == old(store.items)[CurrentUserKey :=
                UserEntry(if current.Some? then Some(UserRecordOf(users[current.value])) else None)]
    {
      current := FindUser(users, email);
      store.SetItem(CurrentUserKey, UserEntry(if current.Some? then Some(UserRecordOf(users[current.value])) else None));
    }

    /** Re-resolves the current user by its email; a no-op when nobody is signed in. */
    method SetCurrentUserContacts()
      requires Valid()
      modifies this, store
      ensures Valid()
      ensures users == old(users) && currentContact == old(currentContact)
      ensures current == Refreshed(users, old(current))
      ensures current.Some? <==> old(current).Some?
      ensures old(current).None? ==> store.items == old(store.items)
      ensures old(current).Some? ==>
                store.items == old(store.items)[CurrentUserKey := UserEntry(Some(UserRecordOf(users[current.value])))]
    {
      RefreshedKeepsUser(users, current);
      if current.Some? {
        current := FindUser(users, users[current.value].email);
        store.SetItem(CurrentUserKey, UserEntry(Some(UserRecordOf(users[current.value]))));
      }
    }
  }
}
