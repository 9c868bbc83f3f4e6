/** The dashboard frame (src/pages/DashboardPage.tsx): it derives the name
    and grade shown in the layout's header from the signed-in user. */
module DashboardPage {
  import opened Basics
  import opened AuthSlice

  const NoUserName: string := "Student"
  const NoGrade: string := "Grade"

  /** `fullName`: "Student" without a user; otherwise first and last name
      joined by a space, missing names read as empty, and trimmed. The
      result never starts or ends with whitespace. */
  function FullName(user: Option<User>): (r: string)
    ensures user.None? ==> r == NoUserName
    ensures user.Some? ==> r == Trim(OrElse(user.value.firstName, "") + " " + OrElse(user.value.lastName, ""))
    ensures r != [] ==> !IsSpace(r[0]) && !IsSpace(r[|r| - 1])
  {
    if user.None? then NoUserName
    else Trim(OrElse(user.value.firstName, "") + " " + OrElse(user.value.lastName, ""))
  }

  /** A name with no whitespace at either end. */
  predicate Tidy(name: string) {
    name != [] && !IsSpace(name[0]) && !IsSpace(name[|name| - 1])
  }

  /** Two tidy names are shown as they are, separated by one space. */
  lemma BothNames(u: User)
    requires u.firstName.Some? && Tidy(u.firstName.value)
    requires u.lastName.Some? && Tidy(u.lastName.value)
    ensures FullName(Some(u)) == u.firstName.value + " " + u.lastName.value
  {
    var first, last := u.firstName.value, u.lastName.value;
    var r := first + " " + last;
    assert r[0] == first[0] && r[|r| - 1] == last[|last| - 1];
    assert [] + r + [] == r;
    TrimOfPadded([], r, []);
  }

  /** With one of the two names missing, the other is shown alone, without
      the separating space. */
  lemma OneName(u: User)
    requires u.firstName.Some? && Tidy(u.firstName.value)
    requires !Truthy(u.lastName)
    ensures FullName(Some(u)) == u.firstName.value
  {
    var first := u.firstName.value;
    assert first + " " + "" == [] + first + " ";
    TrimOfPadded([], first, " ");
  }

  /** A user without names gets an empty name, not "Student". */
  lemma NoNames(u: User)
    requires !Truthy(u.firstName) && !Truthy(u.lastName)
    ensures FullName(Some(u)) == ""
  {
    assert "" + " " + "" == " ";
    assert AllSpace(" ");
  }

  /** `user?.grade || "Grade"`. */
  function GradeLabel(user: Option<User>): (g: string)
    ensures user.Some? && Truthy(user.value.grade) ==> g == user.value.grade.value
    ensures !(user.Some? && Truthy(user.value.grade)) ==> g == NoGrade
    ensures g != ""
  {
    if user.Some? then OrElse(user.value.grade, NoGrade) else NoGrade
  }
}
