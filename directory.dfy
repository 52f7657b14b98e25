/**
 * The user directory's entities and the list operations `UserService` applies
 * to them: `users.find` by email, `indexOf` by identity, `findIndex` by id,
 * `splice` of one element, and the copy written to the store.
 */
module Directory {
  import opened Common
  import opened Storage

  /**
   * A contact is a mutable object: `saveContact` assigns its `id` in place and
   * `deleteContact` finds it by identity, so a copy with equal fields is a
   * different contact.
   */
  class Contact {
    var id: Option<string>
    var details: map<string, string>  // name, phone, email, image, ...

    constructor (details: map<string, string>)
      ensures id == None && this.details == details
    {
      id := None;
      this.details := details;
    }
  }

  /** A registered account; `contacts` is the ordered list the service mutates. */
  datatype User = User(email: string, password: string, contacts: seq<Contact>)

  // ---------------------------------------------------------------------------
  // Users: lookup by email

  /** `users.find(user => user.email === email)`, as the index of the user found. */
  function FindUser(users: seq<User>, email: string): (r: Option<nat>)
    ensures r.Some? ==> r.value < |users| && users[r.value].email == email
    ensures r.Some? ==> forall j :: 0 <= j < r.value ==> users[j].email != email
    ensures r.None? ==> forall j :: 0 <= j < |users| ==> users[j].email != email
  {
    if users == [] then None
    else if users[0].email == email then Some(0)
    else match FindUser(users[1..], email)
      case None => None
      case Some(k) => Some(k + 1)
  }

  /** No two users share an email. */
  predicate DistinctEmails(users: seq<User>) {
    forall i, j :: 0 <= i < j < |users| ==> users[i].email != users[j].email
  }

  /** Appending a user whose email no one has keeps emails distinct, and that user is what a lookup of the email finds. */
  lemma AppendFreshEmail(users: seq<User>, email: string, password: string)
    requires FindUser(users, email).None?
    ensures DistinctEmails(users) ==> DistinctEmails(users + [User(email, password, [])])
    ensures FindUser(users + [User(email, password, [])], email) == Some(|users|)
  {
    var grown := users + [User(email, password, [])];
    assert grown[|users|].email == email;
    assert forall j :: 0 <= j < |users| ==> grown[j] == users[j];
  }

  /** With distinct emails, looking up a user's own email finds that user. */
  lemma FindOwnEmail(users: seq<User>, i: nat)
    requires DistinctEmails(users) && i < |users|
    ensures FindUser(users, users[i].email) == Some(i)
  {
  }

  // ---------------------------------------------------------------------------
  // Contacts: removal by identity

  /** `s.indexOf(x)`: the first position holding `x`, or -1. */
  function IndexOf<T(==)>(s: seq<T>, x: T): (k: int)
    ensures -1 <= k < |s|
    ensures k == -1 <==> x !in s
    ensures k >= 0 ==> s[k] == x && forall j :: 0 <= j < k ==> s[j] != x
  {
    if s == [] then -1
    else if s[0] == x then 0
    else
      var k := IndexOf(s[1..], x);
      if k == -1 then -1 else k + 1
  }

  /** `s` after `splice(s.indexOf(x), 1)` when `x` occurs, else `s`. */
  function WithoutFirst<T(==)>(s: seq<T>, x: T): (r: seq<T>)
    ensures x !in s ==> r == s
    ensures x in s ==> |r| == |s| - 1
  {
    var k := IndexOf(s, x);
    if k == -1 then s else s[..k] + s[k + 1..]
  }

  /** Removing the first occurrence takes exactly one `x` away and keeps the rest in order. */
  lemma WithoutFirstRemovesOne<T>(s: seq<T>, x: T)
    ensures multiset(WithoutFirst(s, x)) == multiset(s) - multiset{x}
    ensures |WithoutFirst(s, x)| == if x in s then |s| - 1 else |s|
    ensures x in s ==> exists k :: 0 <= k < |s| && s[k] == x && (forall j :: 0 <= j < k ==> s[j] != x) && WithoutFirst(s, x) == s[..k] + s[k + 1..]
  {
    var k := IndexOf(s, x);
    if k == -1 {
      assert multiset(s)[x] == 0;
    } else {
      assert s == s[..k] + [x] + s[k + 1..];
      calc {
        multiset(s);
        multiset(s[..k]) + multiset{x} + multiset(s[k + 1..]);
      }
    }
  }

  /** A contact stored once is gone after one removal, so removing it again changes nothing. */
  lemma WithoutFirstTwice<T>(s: seq<T>, x: T)
    requires multiset(s)[x] <= 1
    ensures x !in WithoutFirst(s, x)
    ensures WithoutFirst(WithoutFirst(s, x), x) == WithoutFirst(s, x)
  {
    WithoutFirstRemovesOne(s, x);
    assert multiset(WithoutFirst(s, x))[x] == 0;
  }

  // ---------------------------------------------------------------------------
  // Contacts: replacement by id

  /** `cs.findIndex(c => c.id === id)`: the first position whose contact has that id, or -1. */
  function FindById(cs: seq<Contact>, id: Option<string>): (k: int)
    reads cs
    ensures -1 <= k < |cs|
    ensures k >= 0 ==> cs[k].id == id && forall j :: 0 <= j < k ==> cs[j].id != id
    ensures k == -1 ==> forall j :: 0 <= j < |cs| ==> cs[j].id != id
  {
    if cs == [] then -1
    else if cs[0].id == id then 0
    else
      var k := FindById(cs[1..], id);
      if k == -1 then -1 else k + 1
  }

  /** `cs` with the first contact sharing `c`'s id replaced by `c`; `cs` itself when no id matches. */
  function ReplaceById(cs: seq<Contact>, c: Contact): (r: seq<Contact>)
    reads cs, c
    ensures |r| == |cs|
    ensures forall j :: 0 <= j < |cs| ==> r[j] == cs[j] || (r[j] == c && cs[j].id == c.id)
  {
    var k := FindById(cs, c.id);
    if k == -1 then cs else cs[k := c]
  }

  /** Replacement keeps the length and touches only the first contact with `c`'s id. */
  lemma ReplaceByIdChangesOnlyFirstMatch(cs: seq<Contact>, c: Contact)
    ensures |ReplaceById(cs, c)| == |cs|
    ensures (forall j :: 0 <= j < |cs| ==> cs[j].id != c.id) ==> ReplaceById(cs, c) == cs
    ensures forall j :: 0 <= j < |cs| && cs[j].id == c.id && (forall i :: 0 <= i < j ==> cs[i].id != c.id) ==>
              ReplaceById(cs, c) == cs[j := c]
  {
  }

  // ---------------------------------------------------------------------------
  // The copy written to the store (`JSON.stringify(users)`)

  /** Every contact object reachable from the directory. */
  ghost function Objects(users: seq<User>): set<Contact> {
    set u, c | u in users && c in u.contacts :: c
  }

  function RecordOf(c: Contact): (r: ContactRecord)
    reads c
  {
    ContactRecord(c.id, c.details)
  }

  function Records(cs: seq<Contact>): (r: seq<ContactRecord>)
    reads cs
    ensures |r| == |cs| && forall i :: 0 <= i < |cs| ==> r[i] == RecordOf(cs[i])
  {
    if cs == [] then [] else [RecordOf(cs[0])] + Records(cs[1..])
  }

  function UserRecordOf(u: User): (r: UserRecord)
    reads u.contacts
  {
    UserRecord(u.email, u.password, Records(u.contacts))
  }

  /** The directory as stored: user by user, contact by contact, in order. */
  function Snapshot(users: seq<User>): (r: seq<UserRecord>)
    reads Objects(users)
    ensures |r| == |users|
    ensures forall i :: 0 <= i < |users| ==> r[i].email == users[i].email && r[i].password == users[i].password
    ensures forall i :: 0 <= i < |users| ==> r[i].contacts == Records(users[i].contacts)
  {
    if users == [] then []
    else
      assert forall c :: c in users[0].contacts ==> c in Objects(users);
      assert Objects(users[1..]) <= Objects(users);
      [UserRecordOf(users[0])] + Snapshot(users[1..])
  }
}
