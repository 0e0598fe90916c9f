/** The constraints each entity must meet to be persisted: its Bean
    Validation annotations together with its `nullable = false` columns.
    Columns the database fills in (ids, creation timestamps) are not
    constrained here. Also the `UserDetails` view Spring Security takes of a user. */
module EntityRules {
  import opened Wrappers
  import opened Text
  import opened Model
  import opened Handles
  import Requests

  /** `@NotBlank @Size(max = 50)` on first and last name. */
  predicate ValidName(s: Option<string>) {
    NotBlank(s) && SizeBetween(s, 0, 50)
  }

  /** The constraints both trees put on a user, apart from the handle pattern. */
  predicate ValidUserExceptHandle(u: User, isEmail: string -> bool) {
    && ValidName(u.firstName)
    && ValidName(u.lastName)
    && NotBlank(u.handle)
    && NotBlank(u.email)
    && Requests.EmailOk(u.email, isEmail)
    && NotBlank(u.passwordHash)
  }

  /** online.judge `User`. */
  predicate ValidJudgeUser(u: User, isEmail: string -> bool) {
    ValidUserExceptHandle(u, isEmail) && u.handle.Some? && JudgeHandle(u.handle.value)
  }

  /** dsa `User`. */
  predicate ValidDsaUser(u: User, isEmail: string -> bool) {
    ValidUserExceptHandle(u, isEmail) && u.handle.Some? && DsaHandle(u.handle.value)
  }

  /** What an accepted online.judge user guarantees: names present, with
      visible text and at most 50 characters; a handle that starts with a
      letter, has 1 to 20 characters drawn from letters, digits, '_' and
      '-', never two separators side by side, and ends in a letter or digit. */
  lemma JudgeUserShape(u: User, isEmail: string -> bool)
    requires ValidJudgeUser(u, isEmail)
    ensures u.firstName.Some? && HasText(u.firstName.value) && |u.firstName.value| <= 50
    ensures u.lastName.Some? && HasText(u.lastName.value) && |u.lastName.value| <= 50
    ensures u.handle.Some? && 1 <= |u.handle.value| <= 20 && IsAsciiLetter(u.handle.value[0])
    ensures !EndsWithSeparator(u.handle.value)
    ensures forall i :: 0 <= i < |u.handle.value| ==> IsJudgeHandleChar(u.handle.value[i])
    ensures NoAdjacentSeparators(u.handle.value)
  {
    JudgeHandleShape(u.handle.value);
  }

  /** What an accepted dsa user guarantees: the same names, and a handle of
      3 to 21 characters that starts with a letter and holds no '-'. */
  lemma DsaUserShape(u: User, isEmail: string -> bool)
    requires ValidDsaUser(u, isEmail)
    ensures u.firstName.Some? && HasText(u.firstName.value) && |u.firstName.value| <= 50
    ensures u.lastName.Some? && HasText(u.lastName.value) && |u.lastName.value| <= 50
    ensures u.handle.Some? && 3 <= |u.handle.value| <= 21 && IsAsciiLetter(u.handle.value[0])
    ensures '-' !in u.handle.value
  {
    DsaHandleShape(u.handle.value);
  }

  /** Spring Security's view of a user. */
  datatype UserDetails = UserDetails(
    authorities: seq<string>,
    password: Option<string>,
    username: Option<string>,
    accountNonExpired: bool,
    accountNonLocked: bool,
    credentialsNonExpired: bool,
    enabled: bool)

  /** `getAuthorities`, `getPassword`, `getUsername` and the four account flags
      of `User` (identical in both trees). */
  function AsUserDetails(u: User): (d: UserDetails)
    ensures d.authorities == [RoleName(u.role)]
    ensures d.username == u.handle && d.password == u.passwordHash
    ensures d.accountNonExpired && d.accountNonLocked && d.credentialsNonExpired && d.enabled
  {
    UserDetails([RoleName(u.role)], u.passwordHash, u.handle, true, true, true, true)
  }

  /** Only the role decides a user's authority, and different roles give
      different authorities. */
  lemma AuthoritiesIdentifyRole(u: User, w: User)
    ensures AsUserDetails(u).authorities == AsUserDetails(w).authorities <==> u.role == w.role
  {
    if AsUserDetails(u).authorities == AsUserDetails(w).authorities {
      assert RoleName(u.role) == AsUserDetails(u).authorities[0];
    }
  }

  /** dsa `Problem`: the annotated bounds on title, statement and limits;
      `@Min`/`@Max` pass on null, so the limits and the author being present
      comes from their `nullable = false` columns. */
  predicate ValidProblem(p: Problem) {
    && NotBlank(p.title) && SizeBetween(p.title, 0, 50)
    && NotBlank(p.statement) && SizeBetween(p.statement, 0, 50000)
    && p.timeLimitSeconds.Some? && 1.0 <= p.timeLimitSeconds.value <= 10.0
    && p.memoryLimitMb.Some? && 1 <= p.memoryLimitMb.value <= 1024
    && p.difficulty.Some?
    && p.createdBy.Some?
  }

  /** dsa `TestCase`: the explanation column is nullable and unconstrained. */
  predicate ValidTestCase(t: TestCase) {
    && t.problem.Some?
    && t.isSample.Some?
    && NotBlank(t.input)
    && NotBlank(t.output)
  }

  /** online.judge `Submission`: execution metrics are nullable and unconstrained. */
  predicate ValidSubmission(s: Submission) {
    && s.user.Some?
    && s.problem.Some?
    && s.status.Some?
    && s.language.Some?
    && NotBlank(s.code)
  }

  /** A test case's validity does not depend on its explanation. */
  lemma ExplanationIsOptional(t: TestCase, explanation: Option<string>)
    ensures ValidTestCase(t) <==> ValidTestCase(t.(explanation := explanation))
  {
  }

  /** A submission's validity does not depend on its execution metrics, so
      a submission is valid before it has run. */
  lemma MetricsAreOptional(s: Submission, time: Option<real>, memory: Option<real>)
    ensures ValidSubmission(s) <==> ValidSubmission(s.(executionTimeSeconds := time, memoryUsedMb := memory))
  {
  }
}
