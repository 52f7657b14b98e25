/**
 * The browser's `localStorage`, shared by both services. The source writes
 * JSON text; here each entry holds the value that text encodes, so that what
 * the services persist can be compared with what they hold in memory.
 */
module Storage {
  import opened Common

  /** A contact as the store keeps it: a copy of its fields when it was written. */
  datatype ContactRecord = ContactRecord(id: Option<string>, details: map<string, string>)

  /** A user as the store keeps it. */
  datatype UserRecord = UserRecord(email: string, password: string, contacts: seq<ContactRecord>)

  /** A stored value. */
  datatype Stored =
    | Text(text: string)                   // a plain string, such as "true" under "loggedIn"
    | UserList(users: seq<UserRecord>)     // the whole directory, under "users"
    | UserEntry(user: Option<UserRecord>)  // the current user; None is what storing `undefined` leaves
    | ContactEntry(contact: ContactRecord) // the contact staged for editing

  const UsersKey: string := "users"
  const CurrentUserKey: string := "currentUser"
  const CurrentContactKey: string := "currentContact"
  const LoggedInKey: string := "loggedIn"

  class LocalStorage {
    var items: map<string, Stored>

    constructor (items: map<string, Stored>)
      ensures this.items == items
    {
      this.items := items;
    }

    method SetItem(key: string, value: Stored)
      modifies this
      ensures items == old(items)[key := value]
    {
      items := items[key := value];
    }

    method RemoveItem(key: string)
      modifies this
      ensures items == old(items) - {key}
    {
      items := items - {key};
    }
  }
}
