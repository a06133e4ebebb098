/**
 * The navigation bar (src/components/header.tsx): which links it shows and
 * which one is highlighted for the current path.
 */
module Header {
  import opened Strings

  const HOME := "/"
  const FORMULAS := "/formulas"
  const CATEGORY := "/category"
  const TIPS := "/tips"
  const BUILDER := "/builder"
  const ADMIN := "/admin"

  /** The links every visitor sees, in display order. */
  const NAV_LINKS: seq<string> := [HOME, FORMULAS, CATEGORY, TIPS, BUILDER]

  /** `isActive(href)`: the home link only on `/` itself, any other link on every path under it. */
  function IsActive(pathname: string, href: string): (r: bool)
    ensures href == HOME ==> (r <==> pathname == HOME)
    ensures href != HOME ==> (r <==> |href| <= |pathname| && pathname[..|href|] == href)
  {
    if href == HOME then pathname == HOME
    else if href == CATEGORY then StartsWith(pathname, CATEGORY)
    else StartsWith(pathname, href)
  }

  /** The links the bar renders: the admin link is appended only for an administrator. */
  function VisibleLinks(isAdmin: bool): (r: seq<string>)
    ensures |r| == |NAV_LINKS| + (if isAdmin then 1 else 0)
    ensures r[..|NAV_LINKS|] == NAV_LINKS
    ensures ADMIN in r <==> isAdmin
  {
    if isAdmin then NAV_LINKS + [ADMIN] else NAV_LINKS
  }

  /** A detail page lights up the link of its section: `/formulas/<id>` activates `/formulas`. */
  lemma SectionActive(href: string, rest: string)
    requires href != HOME
    ensures IsActive(href + rest, href)
  {
    assert (href + rest)[..|href|] == href;
  }

  /** The home link is active on `/` alone, and on `/` no other link is. */
  lemma HomeExclusive(pathname: string)
    ensures IsActive(pathname, HOME) <==> pathname == HOME
    ensures pathname == HOME ==> forall href :: href in VisibleLinks(true) && href != HOME ==> !IsActive(pathname, href)
  {
  }
}
