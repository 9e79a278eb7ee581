/** The route guard `src/components/ProtectedRoute.jsx`, and the roles the
    application's route table (`src/App.jsx`) admits on the three landing
    pages it can redirect to. */
module ProtectedRoute {
  import opened Common
  import opened Records

  datatype Decision = Spinner | Redirect(path: string) | Render

  /** Where a logged-in user whose role a page does not admit is sent. */
  function HomeOf(role: Option<string>): (path: string)
    ensures role == Some(ROLE_ADMIN) ==> path == "/admin"
    ensures role == Some(ROLE_MEDICAL_CENTER) ==> path == "/medical-center"
    ensures role != Some(ROLE_ADMIN) && role != Some(ROLE_MEDICAL_CENTER) ==> path == "/dashboard"
  {
    if role == Some(ROLE_ADMIN) then "/admin"
    else if role == Some(ROLE_MEDICAL_CENTER) then "/medical-center"
    else "/dashboard"
  }

  /** `allowedRoles.includes(user.role)`: a missing role is in no list. */
  predicate Admits(allowedRoles: Option<seq<string>>, role: Option<string>)
  {
    allowedRoles.None? || (role.Some? && role.value in allowedRoles.value)
  }

  /** The guard: spinner while loading, login without a user, the user's own
      landing page when the role is not admitted, the page otherwise. */
  function Guard(loading: bool, user: Option<User>, allowedRoles: Option<seq<string>>): (d: Decision)
    ensures loading ==> d == Spinner
    ensures !loading && user.None? ==> d == Redirect("/login")
    ensures d == Render <==> !loading && user.Some? && Admits(allowedRoles, user.value.role)
    ensures d.Redirect? && user.Some? && !loading ==> d.path == HomeOf(user.value.role)
  {
    if loading then Spinner
    else if user.None? then Redirect("/login")
    else if !Admits(allowedRoles, user.value.role) then Redirect(HomeOf(user.value.role))
    else Render
  }

  /** The roles `src/App.jsx` admits on each landing page. */
  function LandingRoles(path: string): Option<seq<string>>
  {
    if path == "/admin" then Some([ROLE_ADMIN])
    else if path == "/medical-center" then Some([ROLE_MEDICAL_CENTER, ROLE_ADMIN])
    else if path == "/dashboard" then Some([ROLE_USER, ROLE_ADMIN, ROLE_MEDICAL_CENTER])
    else None
  }

  /** For the three roles the application creates, a redirect lands on a
      page that renders for the same user: the guard never bounces twice. */
  lemma RedirectLandsOnAdmittingPage(user: User, allowedRoles: Option<seq<string>>)
    requires user.role == Some(ROLE_USER) || user.role == Some(ROLE_ADMIN) || user.role == Some(ROLE_MEDICAL_CENTER)
    requires Guard(false, Some(user), allowedRoles).Redirect?
    ensures Guard(false, Some(user), LandingRoles(Guard(false, Some(user), allowedRoles).path)) == Render
  {
  }

  /** Any other role (or none) is sent to `/dashboard`, which does not
      admit it either, so the guard redirects there again. */
  lemma OtherRoleRedirectsToDashboardAgain(user: User, allowedRoles: Option<seq<string>>)
    requires user.role != Some(ROLE_USER) && user.role != Some(ROLE_ADMIN) && user.role != Some(ROLE_MEDICAL_CENTER)
    requires Guard(false, Some(user), allowedRoles).Redirect?
    ensures Guard(false, Some(user), allowedRoles) == Redirect("/dashboard")
    ensures Guard(false, Some(user), LandingRoles("/dashboard")) == Redirect("/dashboard")
  {
  }
}
