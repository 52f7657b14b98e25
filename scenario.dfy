/**
 * Clients of the services, in the order a user drives them: what can be
 * concluded about a session from the contracts alone.
 */
module Scenario {
  import opened Common
  import opened Storage
  import opened Directory
  import opened Auth
  import opened Users
  import opened Routing

  /** Registering an email twice, then signing in with a wrong and a right password. */
  method SignUpThenSignIn() {
    var store := new LocalStorage(map[]);
    var auth := new AuthService(store);
    var svc := new UserService(auth, [], None, null);
    assert !auth.loggedIn;

    var ok := svc.SignUp("a@x.com", "pw1");
    assert ok && FindUser(svc.users, "a@x.com") == Some(0);
    ok := svc.SignUp("a@x.com", "pw2");
    assert !ok && |svc.users| == 1;

    ok := svc.SignIn("a@x.com", "wrong");
    assert !ok && !auth.loggedIn && svc.current == None;
    ok := svc.SignIn("a@x.com", "pw1");
    assert ok && svc.current == Some(0);
    var flag := auth.IsLoggedIn();
    assert flag;
  }

  /** Adding a contact for the signed-in user, then editing it through a copy of the contact with the same id. */
  method ContactLifecycle(svc: UserService)
    requires svc.Valid() && svc.current.Some? && svc.CurrentUserContacts() == []
    modifies svc, svc.store
  {
    var bob := new Contact(map["name" := "Bob"]);
    svc.SaveContact(bob, false, "1700000000000");
    assert svc.CurrentUserContacts() == [bob] && bob.id == Some("1700000000000");
    assert bob.details == map["name" := "Bob"];

    // The edit form works on a copy with the same id.
    var edited := new Contact(map["name" := "Bob2"]);
    edited.id := bob.id;
    svc.SaveContact(edited, true, "1700000000001");
    assert svc.CurrentUserContacts() == [edited] && edited.details == map["name" := "Bob2"];
  }

  /** Deleting the contact an edit replaced does nothing; deleting the one in the list empties it. */
  method DeleteAfterEdit(svc: UserService, replaced: Contact, edited: Contact)
    requires svc.Valid() && svc.current.Some? && svc.CurrentUserContacts() == [edited] && replaced != edited
    modifies svc, svc.store
  {
    svc.DeleteContact(replaced);
    assert svc.CurrentUserContacts() == [edited];
    svc.DeleteContact(edited);
    assert svc.CurrentUserContacts() == [];
  }

  /** Logging out, after which the (intended) guard sends a visit to the contact list to sign-in. */
  method LogOutThenVisit(svc: UserService)
    requires svc.Valid()
    modifies svc, svc.auth, svc.store
  {
    svc.auth.LogOut();
    var flag := svc.auth.IsLoggedIn();
    assert !flag;
    var go := OnRouteChangeStart(svc, RouteChangeEvent("$routeChangeStart", false), NextRoute(Some(RouteDef(ContactListPath, true))));
    assert go == Some(SignInPath);
    go := OnRouteChangeStartAsWritten(svc, RouteChangeEvent("$routeChangeStart", false), NextRoute(Some(RouteDef(ContactListPath, true))));
    assert go == None;
  }
}
