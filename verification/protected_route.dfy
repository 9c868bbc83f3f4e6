/** The route guard (src/components/auth/ProtectedRoute.tsx): pages that
    need a signed-in user send visitors to the sign-in page, and the
    sign-in and sign-up pages send signed-in users to the content
    dashboard. */
module ProtectedRoute {
  import opened Basics

  const SignInRoute: string := "/signin"
  const HomeRoute: string := "/dashboard/content"

  /** What the guard renders: a replacing redirect, with the location the
      visitor asked for when it is the sign-in redirect, or the children. */
  datatype Decision =
    | Redirect(to: string, from: Option<string>)
    | RenderChildren

  /** `requireAuth` is an optional prop; leaving it out means `true`. */
  function RequireAuthOf(prop: Option<bool>): (b: bool)
    ensures prop.None? ==> b
    ensures prop.Some? ==> b == prop.value
  {
    if prop.Some? then prop.value else true
  }

  /** The guard's decision for the visited location. */
  function Guard(requireAuth: Option<bool>, isAuthenticated: bool, location: string): (d: Decision)
    ensures RequireAuthOf(requireAuth) && !isAuthenticated ==> d == Redirect(SignInRoute, Some(location))
    ensures !RequireAuthOf(requireAuth) && isAuthenticated ==> d == Redirect(HomeRoute, None)
    ensures d.RenderChildren? <==> RequireAuthOf(requireAuth) == isAuthenticated
  {
    var required := RequireAuthOf(requireAuth);
    if required && !isAuthenticated then Redirect(SignInRoute, Some(location))
    else if !required && isAuthenticated then Redirect(HomeRoute, None)
    else RenderChildren
  }

  /** Redirects never chain: the target of a redirect is guarded the
      opposite way (the sign-in page is for guests, the dashboard needs a
      signed-in user), and there the same visitor is let through. */
  lemma RedirectsSettle(requireAuth: Option<bool>, isAuthenticated: bool, location: string)
    ensures var d := Guard(requireAuth, isAuthenticated, location);
      d.Redirect? ==> Guard(Some(!RequireAuthOf(requireAuth)), isAuthenticated, d.to).RenderChildren?
  {
  }
}
