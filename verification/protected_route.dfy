/**
 * The route guard (src/components/auth/ProtectedRoute.tsx): a pure decision from the session and an
 * optional required role to what is rendered in place of the protected children.
 */
module ProtectedRoute {
  import opened Wrappers
  import opened Dtos
  import AuthSession
  import opened Storage

  const LoginPath := "/login"
  const RootPath := "/"

  /** The router location the guard was reached at; only carried along, never inspected. */
  datatype Location = Location(pathname: string, search: string, hash: string)

  /** What the guard renders. */
  datatype View =
    | Spinner
      /** A navigation to `to` that replaces the history entry and remembers where the user was. */
    | Redirect(to: string, from: Location, replace: bool)
      /** The access-denied page naming the required role, with its embedded replace-navigation to `home`. */
    | AccessDenied(requiredRole: Role, home: string)
    | Children

  /** The role test: flat equality, no hierarchy among roles. */
  predicate Admits(required: Option<Role>, role: Role) {
    required.None? || required.value == role
  }

  /** No role stands in for another: each requirement is met by exactly one role. */
  lemma AdmitsIsEquality(required: Role, role: Role)
    ensures Admits(Some(required), role) <==> role == required
    ensures !Admits(Some(Instructor), Admin) && !Admits(Some(Student), Admin)
  {
  }

  /**
   * Loading first, then the redirect to the login page, then the role check, then the children.
   */
  function Guard(s: AuthSession.Session, requiredRole: Option<Role>, here: Location): (v: View)
    ensures s.isLoading ==> v == Spinner
    ensures !s.isLoading && !AuthSession.IsAuthenticated(s) ==> v == Redirect(LoginPath, here, true)
    ensures v.AccessDenied? <==>
              !s.isLoading && AuthSession.IsAuthenticated(s) && !Admits(requiredRole, s.user.value.role)
    ensures v.AccessDenied? ==> requiredRole == Some(v.requiredRole) && v.home == RootPath
    ensures v.Children? <==>
              !s.isLoading && AuthSession.IsAuthenticated(s) && Admits(requiredRole, s.user.value.role)
  {
    if s.isLoading then Spinner
    else if !AuthSession.IsAuthenticated(s) then Redirect(LoginPath, here, true)
    else if requiredRole.Some? && s.user.value.role != requiredRole.value then AccessDenied(requiredRole.value, RootPath)
    else Children
  }

  /** An administrator is turned away from an instructor-only route. */
  lemma AdminDeniedInstructorRoute(s: AuthSession.Session, here: Location)
    requires !s.isLoading && AuthSession.IsAuthenticated(s) && s.user.value.role == Admin
    ensures Guard(s, Some(Instructor), here) == AccessDenied(Instructor, RootPath)
  {
  }

  /** During startup the guard shows the spinner whatever the stored state turns out to be. */
  lemma GuardDuringStartup(store: Store, requiredRole: Option<Role>, here: Location)
    requires Truthy(Get(store, AuthSession.TokenKey))
    ensures Guard(AuthSession.StartupEffect(AuthSession.Mount(store)).client.session, requiredRole, here) == Spinner
  {
  }
}
