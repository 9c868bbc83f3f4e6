/** The round avatar (src/components/common/UserAvatar.tsx): the profile
    photo when there is one, otherwise the user's initials in capitals. */
module UserAvatar {
  import opened Basics

  /** `String.prototype.toUpperCase` on one character, for the ASCII
      letters; every other character is kept as it is. */
  function UpperAscii(c: char): (u: char)
    ensures 'a' <= c <= 'z' ==> u as int == c as int - 32
    ensures !('a' <= c <= 'z') ==> u == c
    ensures !('a' <= u <= 'z')
  {
    if 'a' <= c <= 'z' then (c as int - 32) as char else c
  }

  lemma UpperAsciiIdempotent(c: char)
    ensures UpperAscii(UpperAscii(c)) == UpperAscii(c)
  {
  }

  /** `name?.[0] || ''`: the first character, or nothing for a missing or
      empty name. */
  function FirstLetter(name: Option<string>): (r: string)
    ensures |r| <= 1
    ensures r == [] <==> !Truthy(name)
    ensures r != [] ==> r[0] == name.value[0]
  {
    if Truthy(name) then [name.value[0]] else ""
  }

  /** `getInitials`: the first letters of the first and last name, in that
      order, upper-cased. */
  function Initials(firstName: Option<string>, lastName: Option<string>): (r: string)
    ensures |r| == |FirstLetter(firstName)| + |FirstLetter(lastName)|
    ensures r == "" <==> !Truthy(firstName) && !Truthy(lastName)
    ensures Truthy(firstName) ==> r[0] == UpperAscii(firstName.value[0])
    ensures Truthy(lastName) ==> r[|r| - 1] == UpperAscii(lastName.value[0])
    ensures forall i | 0 <= i < |r| :: !('a' <= r[i] <= 'z')
  {
    var letters := FirstLetter(firstName) + FirstLetter(lastName);
    seq(|letters|, i requires 0 <= i < |letters| => UpperAscii(letters[i]))
  }

  /** For names written with a capital, the initials are those capitals. */
  lemma InitialsOfCapitalisedNames(first: string, last: string)
    requires first != "" && last != ""
    requires 'A' <= first[0] <= 'Z' && 'A' <= last[0] <= 'Z'
    ensures Initials(Some(first), Some(last)) == [first[0], last[0]]
  {
  }

  datatype Size = Sm | Md | Lg

  /** The optional `size` prop; leaving it out means medium. */
  function SizeOf(prop: Option<Size>): (s: Size)
    ensures prop.None? ==> s == Md
    ensures prop.Some? ==> s == prop.value
  {
    if prop.Some? then prop.value else Md
  }

  datatype Content = Photo(src: string, alt: string) | InitialsText(text: string)

  datatype Avatar = Avatar(size: Size, content: Content)

  /** What the avatar renders: the photo whenever `profilePhoto` is truthy
      (with the full name as its alternative text), the initials otherwise. */
  function Render(firstName: Option<string>, lastName: Option<string>, size: Option<Size>, profilePhoto: Option<string>): (a: Avatar)
    ensures a.size == SizeOf(size)
    ensures a.content.Photo? <==> Truthy(profilePhoto)
    ensures a.content.Photo? ==> a.content.src == profilePhoto.value
    ensures a.content.Photo? ==> a.content.alt == firstName.GetOr("") + " " + lastName.GetOr("")
    ensures a.content.InitialsText? ==> a.content.text == Initials(firstName, lastName)
  {
    var content :=
      if Truthy(profilePhoto) then Photo(profilePhoto.value, firstName.GetOr("") + " " + lastName.GetOr(""))
      else InitialsText(Initials(firstName, lastName));
    Avatar(SizeOf(size), content)
  }
}
