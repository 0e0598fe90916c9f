/** The entities, enumerations, view records and exceptions of the
    platform's back end, shared by both package trees.

    Identifiers are abstract integers: the trees disagree on their types
    (UUID against Long) and generated keys are not modelled. Nullable Java
    fields are `Option`s. */
module Model {
  import opened Wrappers

  type Id = int

  /** The identity of a `Problem` object, which tags and test cases point back to. */
  type ProblemRef = nat

  datatype UserRole = USER | ADMIN

  /** `UserRole.name()` */
  function RoleName(role: UserRole): (name: string) {
    match role
    case USER => "USER"
    case ADMIN => "ADMIN"
  }

  datatype SubmissionStatus =
    | WAITING_FOR_EXECUTION
    | RUNNING
    | PASSED
    | TIME_LIMIT_EXCEEDED
    | MEMORY_LIMIT_EXCEEDED
    | COMPILATION_ERROR
    | RUNTIME_ERROR

  /** Enumerations whose constants are not part of this model; each value
      is identified by its constant's name. */
  datatype Difficulty = Difficulty(name: string)
  datatype ProblemTag = ProblemTag(name: string)
  datatype Language = Language(name: string)

  /** The `users` table. Every construction path sets the role, so it is not
      nullable here. `createdAt` is filled in by the database. */
  datatype User = User(
    id: Option<Id>,
    firstName: Option<string>,
    lastName: Option<string>,
    handle: Option<string>,
    email: Option<string>,
    passwordHash: Option<string>,
    role: UserRole,
    createdAt: Option<int>)

  datatype Tag = Tag(tagName: ProblemTag, problem: Option<ProblemRef>)

  /** The `test_cases` table. */
  datatype TestCase = TestCase(
    id: Option<Id>,
    problem: Option<ProblemRef>,
    isSample: Option<bool>,
    explanation: Option<string>,
    input: Option<string>,
    output: Option<string>)

  /** The `problems` table, with the tag and test-case collections the
      converter and services attach to it. */
  datatype Problem = Problem(
    id: Option<Id>,
    title: Option<string>,
    statement: Option<string>,
    timeLimitSeconds: Option<real>,
    memoryLimitMb: Option<int>,
    difficulty: Option<Difficulty>,
    createdBy: Option<User>,
    createdAt: Option<int>,
    tags: seq<Tag>,
    testCases: seq<TestCase>)

  /** The `submissions` table. Execution time and memory are set only once
      the code has run. */
  datatype Submission = Submission(
    id: Option<Id>,
    user: Option<User>,
    problem: Option<Problem>,
    submittedAt: Option<int>,
    status: Option<SubmissionStatus>,
    language: Option<Language>,
    code: Option<string>,
    executionTimeSeconds: Option<real>,
    memoryUsedMb: Option<real>)

  /** View records returned to clients. */
  datatype TestCaseUi = TestCaseUi(input: Option<string>, output: Option<string>, explanation: Option<string>)

  datatype ProblemSummaryUi = ProblemSummaryUi(
    id: Option<Id>,
    title: Option<string>,
    difficulty: Option<Difficulty>,
    tags: seq<ProblemTag>)

  datatype ProblemDetailsUi = ProblemDetailsUi(
    id: Option<Id>,
    title: Option<string>,
    statement: Option<string>,
    timeLimitInSecond: Option<real>,
    memoryLimitInMb: Option<int>,
    difficulty: Option<Difficulty>,
    tags: seq<ProblemTag>,
    sampleTestCases: seq<TestCaseUi>)

  datatype TestResultSummaryUi = TestResultSummaryUi(
    testCaseNumber: int,
    status: SubmissionStatus,
    executionTime: Option<real>,
    memoryUsed: Option<real>)

  datatype SubmissionDetailsUi = SubmissionDetailsUi(
    id: Option<Id>,
    status: Option<SubmissionStatus>,
    language: Option<Language>,
    submittedAt: Option<int>,
    code: Option<string>,
    executionTime: Option<real>,
    memoryUsed: Option<real>,
    testResults: seq<TestResultSummaryUi>)

  datatype SubmissionSummaryUi = SubmissionSummaryUi(
    id: Option<Id>,
    status: Option<SubmissionStatus>,
    language: Option<Language>,
    submittedAt: Option<int>)

  /** The exceptions the modelled code throws, with their messages. */
  datatype Error =
    | UserAlreadyExists(message: string)
    | UserNotAuthorized(message: string)
    | ProblemNotFound(message: string)
    | SubmissionNotFound(message: string)
      /** `PageRequest.of` rejected a negative page index or a page size below one. */
    | InvalidPage
      /** The JPA repository refused a page whose offset exceeds `Integer.MAX_VALUE`. */
    | OffsetTooLarge
      /** A null `Boolean` or list was dereferenced. */
    | NullPointer

  /** A service call's result together with the store it leaves behind. */
  datatype Effect<T, S> = Effect(result: Result<T, Error>, store: S)
}
