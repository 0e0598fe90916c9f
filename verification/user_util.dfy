/** online.judge `UserUtil.getCurrentAuthenticatedUser`, with the security
    context's authentication passed in instead of read from ambient state. */
module UserUtil {
  import opened Wrappers
  import opened Model

  /** The authentication's principal: a `User`, or any other object
      (a user name string, `null`, ...). */
  datatype Principal = UserPrincipal(user: User) | OtherPrincipal

  datatype Authentication = Authentication(authenticated: bool, principal: Principal)

  const NoAuthenticatedUser := "No authenticated user found in security context."
  const PrincipalNotAUser := "The authenticated principal is not an instance of the User class."

  /** The authenticated user, if the context holds an authenticated `User`
      principal; otherwise one of two authorization errors. */
  function GetCurrentAuthenticatedUser(auth: Option<Authentication>): (r: Result<User, Error>)
    ensures r.Success? <==>
              auth.Some? && auth.value.authenticated && auth.value.principal.UserPrincipal?
    ensures r.Success? ==> r.value == auth.value.principal.user
    ensures auth.None? || !auth.value.authenticated ==>
              r == Failure(UserNotAuthorized(NoAuthenticatedUser))
    ensures auth.Some? && auth.value.authenticated && auth.value.principal.OtherPrincipal? ==>
              r == Failure(UserNotAuthorized(PrincipalNotAUser))
  {
    if auth.None? || !auth.value.authenticated then
      Failure(UserNotAuthorized(NoAuthenticatedUser))
    else match auth.value.principal
      case UserPrincipal(u) => Success(u)
      case OtherPrincipal => Failure(UserNotAuthorized(PrincipalNotAUser))
  }
}
