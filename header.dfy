/** The user menu in the page header: the initials on its avatar and the name
    it shows. */
module Header {
  import opened Optional
  import Text
  import opened UserSlice

  /** Both name parts are present (non-empty) for a signed-in user. */
  predicate HasFullName(user: Option<User>) {
    user.Some? && user.value.firstName != "" && user.value.lastName != ""
  }

  /** `userInitials`: the first characters of the two name parts as they are,
      else the uppercased first character of the e-mail address, else "U". */
  function Initials(user: Option<User>): (r: string)
    ensures HasFullName(user) ==> r == [user.value.firstName[0], user.value.lastName[0]]
    ensures !HasFullName(user) && user.Some? && user.value.emailAddress != "" ==> r == [Text.UpperChar(user.value.emailAddress[0])]
    ensures !HasFullName(user) && (user.None? || user.value.emailAddress == "") ==> r == "U"
    ensures 1 <= |r| <= 2
  {
    if HasFullName(user) then [user.value.firstName[0], user.value.lastName[0]]
    else if user.Some? && user.value.emailAddress != "" then [Text.UpperChar(user.value.emailAddress[0])]
    else "U"
  }

  /** The name-based initials keep the case the names were typed in. */
  lemma NameInitialsNotUppercased(first: string, last: string, email: string)
    requires first != "" && last != ""
    ensures Initials(Some(User(first, last, email)))[0] == first[0]
  {
  }

  /** `displayName`: "first last" with one space, else the e-mail address,
      else "User". */
  function DisplayName(user: Option<User>): (r: string)
    ensures HasFullName(user) ==> r == user.value.firstName + " " + user.value.lastName
    ensures !HasFullName(user) && user.Some? && user.value.emailAddress != "" ==> r == user.value.emailAddress
    ensures !HasFullName(user) && (user.None? || user.value.emailAddress == "") ==> r == "User"
    ensures r != ""
  {
    if HasFullName(user) then user.value.firstName + " " + user.value.lastName
    else if user.Some? && user.value.emailAddress != "" then user.value.emailAddress
    else "User"
  }

  /** The avatar's initials start the shown name: the name's first
      characters, or the address's first character up to case. */
  lemma InitialsMatchDisplayName(user: Option<User>)
    ensures HasFullName(user) ==>
      var d := DisplayName(user);
      var i := Initials(user);
      i[0] == d[0] && i[1] == d[|user.value.firstName| + 1]
    ensures !HasFullName(user) && user.Some? && user.value.emailAddress != "" ==>
      Initials(user) == [Text.UpperChar(DisplayName(user)[0])]
  {
    if HasFullName(user) {
      var u := user.value;
      assert (u.firstName + " " + u.lastName)[|u.firstName| + 1] == u.lastName[0];
    }
  }
}
