/** The route guard: children render unless the route lists roles and the current one is not among them. */
module ProtectedRoute {
  import opened Common
  import opened UserContext

  datatype Rendered = Children | AccessDenied

  function Guard(allowedRoles: Option<seq<UserRole>>, current: UserRole): (r: Rendered)
    ensures allowedRoles.None? ==> r == Children
    ensures allowedRoles.Some? ==> (r == Children <==> current in allowedRoles.value)
  {
    if allowedRoles.Some? && current !in allowedRoles.value then AccessDenied else Children
  }

  /** A route that lists no role at all is closed to every role. */
  lemma EmptyListDeniesAll(current: UserRole)
    ensures Guard(Some([]), current) == AccessDenied
  {
  }

  /** The guard is the list form of the role authority's permission test. */
  lemma GuardIsPermission(allowedRoles: seq<UserRole>, current: UserRole)
    ensures Guard(Some(allowedRoles), current) == Children <==> HasPermission(AnyRole(allowedRoles), current)
  {
  }
}
