/**
 * A user account. FullName is derived from the first and last names on
 * every read and is the identity name written into audit fields.
 */
module UserModel {
  import opened Wrappers
  import opened AddressModel

  datatype User = User(username: Option<string>, firstName: Option<string>,
                       lastName: Option<string>, passwordHash: string)

  /** The Register form. Its validation attributes are not part of this
      model: whether the binder accepted it is an input of Register. */
  datatype RegisterForm = RegisterForm(firstName: Option<string>, lastName: Option<string>,
                                       username: Option<string>, password: string)

  /** How Login ends: signed in with the Name and NameIdentifier claims, the
      form again with "Invalid username or password", or an exception that
      escapes the action (a null password handed to BCrypt.Verify, or a
      null username handed to the NameIdentifier claim). */
  datatype LoginResult = SignedIn(identityName: string, nameIdentifier: string) | LoginFailed | LoginThrew

  /** "{FirstName} {LastName}", a null name rendering as nothing. */
  function FullName(u: User): string {
    Render(u.firstName) + " " + Render(u.lastName)
  }

  /** The full name starts with the first name, continues with one space
      and ends with the last name. */
  lemma FullNameParts(u: User)
    ensures var first, last, full := Render(u.firstName), Render(u.lastName), FullName(u);
      && |full| == |first| + |last| + 1
      && full[..|first|] == first
      && full[|first|] == ' '
      && full[|first| + 1..] == last
  {
  }

  /** Two different users can share a full name, so an audit stamp cannot
      always tell who made a change. */
  lemma FullNameAmbiguous()
    ensures var a, b := User(Some("x"), Some("Ana Maria"), Some("Cruz"), "h1"),
                        User(Some("y"), Some("Ana"), Some("Maria Cruz"), "h2");
      a != b && FullName(a) == FullName(b)
  {
  }
}
