/** dsa `UserConverter`: a new user from a registration request, always
    with the USER role and no password hash yet. */
module DsaUserConverter {
  import opened Wrappers
  import opened Model
  import opened Requests

  function ToUserFromRegisterRequestWithoutPassword(r: RegisterRequest): (u: User)
    ensures u.handle == r.handle && u.email == r.email
    ensures u.firstName == r.firstName && u.lastName == r.lastName
    ensures u.role == USER
    ensures u.passwordHash.None? && u.id.None? && u.createdAt.None?
  {
    User(None, r.firstName, r.lastName, r.handle, r.email, None, USER, None)
  }
}

/** online.judge `UserConverter`: as the dsa one, except that the request
    may choose the role, USER being the default. */
module JudgeUserConverter {
  import opened Wrappers
  import opened Model
  import opened Requests
  import DsaUserConverter

  function ToUserFromRegisterRequestWithoutPassword(r: RegisterRequest): (u: User)
    ensures u.handle == r.handle && u.email == r.email
    ensures u.firstName == r.firstName && u.lastName == r.lastName
    ensures r.userRole.Some? ==> u.role == r.userRole.value
    ensures r.userRole.None? ==> u.role == USER
    ensures u.passwordHash.None? && u.id.None? && u.createdAt.None?
  {
    User(None, r.firstName, r.lastName, r.handle, r.email, None, r.userRole.GetOr(USER), None)
  }

  /** The two converters differ only when the request asks for ADMIN. */
  lemma ConvertersAgreeUnlessAdmin(r: RegisterRequest)
    ensures ToUserFromRegisterRequestWithoutPassword(r) == DsaUserConverter.ToUserFromRegisterRequestWithoutPassword(r)
            <==> r.userRole != Some(ADMIN)
  {
  }
}
