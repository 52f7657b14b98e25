/** The input checks `SignUpController.signUp` makes before calling `UserService.signUp`. */
module SignUpForm {
  import opened Common

  /** The form's fields; a field never typed into is undefined. */
  datatype Form = Form(email: Option<string>, password: Option<string>, confirmPassword: Option<string>)

  datatype Check =
    | MissingField                            // "Email and password are required."
    | PasswordsDiffer                         // `passwordsMatchError` is raised
    | Submit(email: string, password: string) // passed on to `UserService.signUp`

  /** JavaScript truthiness of a string field: present and not empty. */
  predicate Truthy(v: Option<string>) {
    v.Some? && v.value != ""
  }

  function CheckForm(f: Form): (r: Check)
    ensures r == MissingField <==> !Truthy(f.email) || !Truthy(f.password)
    ensures r == PasswordsDiffer <==> Truthy(f.email) && Truthy(f.password) && f.password != f.confirmPassword
    ensures r.Submit? <==> Truthy(f.email) && Truthy(f.password) && f.password == f.confirmPassword
    ensures r.Submit? ==> f.email == Some(r.email) && f.password == Some(r.password) &&
                          r.email != "" && r.password != ""
  {
    if !Truthy(f.email) || !Truthy(f.password) then MissingField
    else if f.password != f.confirmPassword then PasswordsDiffer
    else Submit(f.email.value, f.password.value)
  }
}
