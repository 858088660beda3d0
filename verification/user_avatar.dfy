/**
 * The avatar component: the picture when there is one, otherwise a square of
 * the given size showing the first two characters of the username in upper case.
 */
module Avatar {
  import opened Wrappers
  import opened Text
  import opened Lists

  /** What the component draws: an image of a URI, or a placeholder with initials. */
  datatype View = Photo(uri: string) | Initials(text: string)

  /** The view with the side lengths it is drawn at. */
  datatype Rendered = Rendered(view: View, width: int, height: int)

  /** The side length when the caller gives none. */
  const DefaultSize: int := 130

  /** Shown when there is no username to take initials from. */
  const Unknown: string := "??"

  /** `username?.slice(0, 2).toUpperCase() || "??"` */
  function InitialsOf(username: Option<string>): (r: string)
    ensures r != ""
    ensures Present(username) ==> r == ToUpper(Take(username.value, 2))
    ensures !Present(username) ==> r == Unknown
    ensures 1 <= |r| <= 2
  {
    if Present(username) then ToUpper(Take(username.value, 2)) else Unknown
  }

  /** The initials are upper case: no lower-case letter is left in them. */
  lemma InitialsAreUpperCase(username: Option<string>)
    ensures forall i :: 0 <= i < |InitialsOf(username)| ==> !IsLowerLetter(InitialsOf(username)[i])
  {
  }

  /** The initials of a name are those of its first two characters. */
  lemma InitialsOfPrefix(name: string, rest: string)
    requires |name| == 2
    ensures InitialsOf(Some(name + rest)) == InitialsOf(Some(name))
  {
    assert (name + rest)[..2] == name;
  }

  /**
   * The component: a present avatar always wins over initials, and both sides
   * are `size`, or 130 when no size is given.
   */
  function Render(avatar: Option<string>, username: Option<string>, size: Option<int>): (r: Rendered)
    ensures r.width == r.height == size.GetOr(DefaultSize)
    ensures r.view.Photo? <==> Present(avatar)
    ensures Present(avatar) ==> r.view == Photo(avatar.value)
    ensures !Present(avatar) ==> r.view == Initials(InitialsOf(username))
  {
    var side := size.GetOr(DefaultSize);
    if Present(avatar) then Rendered(Photo(avatar.value), side, side)
    else Rendered(Initials(InitialsOf(username)), side, side)
  }
}
