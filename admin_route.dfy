/**
 * frontend/src/components/adminRoute.jsx: the guard in front of the admin pages. Without a
 * user it sends to /login, remembering where the visitor was; a user who is not exactly an
 * admin goes to /dashboard; only an admin sees the page.
 */
module AdminRoute {
  import opened Wrappers
  import opened JsValues

  datatype View =
    /** `<Navigate to={to} state={{ from }} replace />`; `from` is None when no state is passed. */
    | Navigate(to: string, from: Option<JsValue>, replace: bool)
    | Children

  function Guard(user: JsValue, location: JsValue): (v: View)
  {
    if !Truthy(user) then Navigate("/login", Some(location), true)
    else if Field(user, "role") != Str("admin") then Navigate("/dashboard", None, true)
    else Children
  }

  /**
   * The page renders exactly for a user whose role is the string 'admin'; the user check comes
   * first, so a missing user always goes to /login, never to /dashboard, and every redirect
   * replaces the history entry.
   */
  lemma GuardCases(user: JsValue, location: JsValue)
    ensures Guard(user, location) == Children <==> Truthy(user) && Field(user, "role") == Str("admin")
    ensures !Truthy(user) ==> Guard(user, location) == Navigate("/login", Some(location), true)
    ensures Truthy(user) && Field(user, "role") != Str("admin") ==> Guard(user, location) == Navigate("/dashboard", None, true)
    ensures Guard(user, location).Navigate? ==> Guard(user, location).replace
    ensures Guard(user, location).Navigate? && Guard(user, location).to == "/dashboard" ==> Truthy(user)
  {
  }
}
