/** The request bodies of the REST API and their declarative constraints.

    Each annotated request has a `...Violations` function listing, for a
    given request, the constraint violations Bean Validation reports: the
    property path and the message written in the annotation. A request is
    valid when that set is empty. The `...Validity` lemmas restate validity
    field by field. */
module Requests {
  import opened Wrappers
  import opened Text
  import opened Model

  /** Registration body. The online.judge record carries `userRole`; the dsa
      class form declares the same five constrained fields and no role. */
  datatype RegisterRequest = RegisterRequest(
    handle: Option<string>,
    email: Option<string>,
    password: Option<string>,
    firstName: Option<string>,
    lastName: Option<string>,
    userRole: Option<UserRole>)

  datatype LoginRequest = LoginRequest(handle: Option<string>, password: Option<string>)

  datatype CreateTestCaseRequest = CreateTestCaseRequest(
    input: Option<string>,
    expectedOutput: Option<string>,
    isSample: Option<bool>,
    explanation: Option<string>)

  datatype CreateProblemRequest = CreateProblemRequest(
    title: Option<string>,
    statement: Option<string>,
    difficulty: Option<Difficulty>,
    timeLimit: Option<real>,
    memoryLimit: Option<int>,
    tags: Option<seq<ProblemTag>>,
    testCases: Option<seq<Option<CreateTestCaseRequest>>>)

  datatype SubmitCodeRequest = SubmitCodeRequest(
    problemId: Option<Id>,
    code: Option<string>,
    language: Option<Language>)

  /** One reported constraint violation. */
  datatype Violation = Violation(path: string, message: string)

  /** The violation a single constraint contributes. */
  function Check(ok: bool, path: string, message: string): (vs: set<Violation>) {
    if ok then {} else {Violation(path, message)}
  }

  /** `@Email`: its grammar belongs to the validation library and is a
      parameter here; a null value is valid. */
  predicate EmailOk(s: Option<string>, isEmail: string -> bool) {
    s.None? || isEmail(s.value)
  }

  /** `@NotEmpty` on a list: non-null with at least one element. */
  predicate NotEmpty<T>(xs: Option<seq<T>>) {
    xs.Some? && |xs.value| > 0
  }

  function RegisterViolations(r: RegisterRequest, isEmail: string -> bool): (vs: set<Violation>) {
    Check(NotBlank(r.handle), "handle", "Handle cannot be empty")
    + Check(SizeBetween(r.handle, 3, 20), "handle", "Handle must be between 3 and 20 characters")
    + Check(NotBlank(r.email), "email", "Email cannot be empty")
    + Check(EmailOk(r.email, isEmail), "email", "Please provide a valid email address")
    + Check(NotBlank(r.password), "password", "Password cannot be empty")
    + Check(SizeAtLeast(r.password, 8), "password", "Password must be at least 8 characters long")
    + Check(LettersOnly(r.firstName), "firstName", "First name must contain only alphabets")
    + Check(LettersOnly(r.lastName), "lastName", "Last name must contain only alphabets")
  }

  predicate ValidRegisterRequest(r: RegisterRequest, isEmail: string -> bool) {
    RegisterViolations(r, isEmail) == {}
  }

  /** A registration is accepted exactly when the handle is non-blank with 3
      to 20 characters, the email is non-blank and well formed, the password
      is non-blank with at least 8 characters, and each name is absent or
      made of ASCII letters only (the empty name included). */
  lemma RegisterRequestValidity(r: RegisterRequest, isEmail: string -> bool)
    ensures ValidRegisterRequest(r, isEmail) <==>
              && r.handle.Some? && HasText(r.handle.value) && 3 <= |r.handle.value| <= 20
              && r.email.Some? && HasText(r.email.value) && isEmail(r.email.value)
              && r.password.Some? && HasText(r.password.value) && 8 <= |r.password.value|
              && (r.firstName.None? || forall i :: 0 <= i < |r.firstName.value| ==> IsAsciiLetter(r.firstName.value[i]))
              && (r.lastName.None? || forall i :: 0 <= i < |r.lastName.value| ==> IsAsciiLetter(r.lastName.value[i]))
  {
    var v := RegisterViolations(r, isEmail);
    if !NotBlank(r.handle) { assert Violation("handle", "Handle cannot be empty") in v; }
    if !SizeBetween(r.handle, 3, 20) { assert Violation("handle", "Handle must be between 3 and 20 characters") in v; }
    if !NotBlank(r.email) { assert Violation("email", "Email cannot be empty") in v; }
    if !EmailOk(r.email, isEmail) { assert Violation("email", "Please provide a valid email address") in v; }
    if !NotBlank(r.password) { assert Violation("password", "Password cannot be empty") in v; }
    if !SizeAtLeast(r.password, 8) { assert Violation("password", "Password must be at least 8 characters long") in v; }
    if !LettersOnly(r.firstName) { assert Violation("firstName", "First name must contain only alphabets") in v; }
    if !LettersOnly(r.lastName) { assert Violation("lastName", "Last name must contain only alphabets") in v; }
  }

  /** The names and the role play no part beyond the letters-only rule:
      dropping or emptying a name and changing the role keep a valid request valid. */
  lemma RegisterRequestOptionalFields(r: RegisterRequest, isEmail: string -> bool, first: Option<string>, role: Option<UserRole>)
    requires ValidRegisterRequest(r, isEmail)
    requires first == None || first == Some("")
    ensures ValidRegisterRequest(r.(firstName := first, lastName := first, userRole := role), isEmail)
  {
  }

  function LoginViolations(r: LoginRequest): (vs: set<Violation>) {
    Check(NotBlank(r.handle), "handle", "Handle cannot be empty")
    + Check(SizeBetween(r.handle, 3, 20), "handle", "Handle must be between 3 and 20 characters")
    + Check(NotBlank(r.password), "password", "Password cannot be empty")
    + Check(SizeAtLeast(r.password, 8), "password", "Password must be at least 8 characters long")
  }

  predicate ValidLoginRequest(r: LoginRequest) {
    LoginViolations(r) == {}
  }

  /** A login is accepted exactly when the handle is non-blank with 3 to 20
      characters and the password is non-blank with at least 8. */
  lemma LoginRequestValidity(r: LoginRequest)
    ensures ValidLoginRequest(r) <==>
              && r.handle.Some? && HasText(r.handle.value) && 3 <= |r.handle.value| <= 20
              && r.password.Some? && HasText(r.password.value) && 8 <= |r.password.value|
  {
    var v := LoginViolations(r);
    if !NotBlank(r.handle) { assert Violation("handle", "Handle cannot be empty") in v; }
    if !SizeBetween(r.handle, 3, 20) { assert Violation("handle", "Handle must be between 3 and 20 characters") in v; }
    if !NotBlank(r.password) { assert Violation("password", "Password cannot be empty") in v; }
    if !SizeAtLeast(r.password, 8) { assert Violation("password", "Password must be at least 8 characters long") in v; }
  }

  /** An eight-space password is long enough yet blank; a two-letter handle
      is non-blank yet too short. Each reports exactly its own message. */
  lemma LoginViolationExamples()
    ensures LoginViolations(LoginRequest(Some("alice"), Some("        ")))
         == {Violation("password", "Password cannot be empty")}
    ensures LoginViolations(LoginRequest(Some("al"), Some("password1")))
         == {Violation("handle", "Handle must be between 3 and 20 characters")}
  {
    assert HasText("alice") by { assert !IsTrimmable("alice"[0]); }
    assert HasText("al") by { assert !IsTrimmable("al"[0]); }
    assert HasText("password1") by { assert !IsTrimmable("password1"[0]); }
    assert !HasText("        ");
  }

  function TestCaseViolations(t: CreateTestCaseRequest): (vs: set<Violation>) {
    Check(NotBlank(t.input), "input", "Input cannot be blank")
    + Check(NotBlank(t.expectedOutput), "expectedOutput", "Expected output cannot be blank")
    + Check(t.isSample.Some?, "isSample", "isSample flag must be provided")
  }

  predicate ValidTestCaseRequest(t: CreateTestCaseRequest) {
    TestCaseViolations(t) == {}
  }

  /** A test-case request is accepted exactly when input and expected output
      are non-blank and the sample flag is present; the explanation is free. */
  lemma TestCaseRequestValidity(t: CreateTestCaseRequest, explanation: Option<string>)
    ensures ValidTestCaseRequest(t) <==>
              t.input.Some? && HasText(t.input.value)
              && t.expectedOutput.Some? && HasText(t.expectedOutput.value)
              && t.isSample.Some?
    ensures ValidTestCaseRequest(t) <==> ValidTestCaseRequest(t.(explanation := explanation))
  {
    var v := TestCaseViolations(t);
    if !NotBlank(t.input) { assert Violation("input", "Input cannot be blank") in v; }
    if !NotBlank(t.expectedOutput) { assert Violation("expectedOutput", "Expected output cannot be blank") in v; }
    if t.isSample.None? { assert Violation("isSample", "isSample flag must be provided") in v; }
  }

  /** `@Valid` on the test-case list: the violations of element i, reported
      under the path `testCases[i].`. Cascading skips null elements. */
  function NestedTestCaseViolations(ts: Option<seq<Option<CreateTestCaseRequest>>>): (vs: set<Violation>) {
    if ts.None? then {}
    else
      set i, v | 0 <= i < |ts.value| && ts.value[i].Some? && v in TestCaseViolations(ts.value[i].value)
        :: Violation("testCases[" + NatToString(i) + "]." + v.path, v.message)
  }

  function CreateProblemViolations(r: CreateProblemRequest): (vs: set<Violation>) {
    Check(NotBlank(r.title), "title", "Title cannot be blank")
    + Check(NotBlank(r.statement), "statement", "Statement cannot be blank")
    + Check(r.difficulty.Some?, "difficulty", "Difficulty cannot be null")
    + Check(r.timeLimit.Some?, "timeLimit", "Time limit must be provided")
    + Check(r.memoryLimit.Some?, "memoryLimit", "Memory limit must be provided")
    + Check(NotEmpty(r.tags), "tags", "Tags cannot be empty")
    + Check(NotEmpty(r.testCases), "testCases", "Test cases cannot be empty")
    + NestedTestCaseViolations(r.testCases)
  }

  predicate ValidCreateProblemRequest(r: CreateProblemRequest) {
    CreateProblemViolations(r) == {}
  }

  /** The nested violations vanish exactly when every non-null element is valid. */
  lemma NestedViolationsEmpty(ts: seq<Option<CreateTestCaseRequest>>)
    ensures NestedTestCaseViolations(Some(ts)) == {} <==>
              forall i :: 0 <= i < |ts| && ts[i].Some? ==> ValidTestCaseRequest(ts[i].value)
  {
    if i :| 0 <= i < |ts| && ts[i].Some? && !ValidTestCaseRequest(ts[i].value) {
      var v :| v in TestCaseViolations(ts[i].value);
      assert Violation("testCases[" + NatToString(i) + "]." + v.path, v.message)
        in NestedTestCaseViolations(Some(ts));
    }
  }

  /** A create-problem request is accepted exactly when title and statement
      are non-blank, difficulty and both limits are present, the tag and
      test-case lists are non-empty, and every test case that is not null is
      itself valid: a null element passes. Nothing bounds the limits or the
      title's length. */
  lemma CreateProblemRequestValidity(r: CreateProblemRequest)
    ensures ValidCreateProblemRequest(r) <==>
              && r.title.Some? && HasText(r.title.value)
              && r.statement.Some? && HasText(r.statement.value)
              && r.difficulty.Some? && r.timeLimit.Some? && r.memoryLimit.Some?
              && r.tags.Some? && |r.tags.value| > 0
              && r.testCases.Some? && |r.testCases.value| > 0
              && forall i :: 0 <= i < |r.testCases.value| && r.testCases.value[i].Some? ==>
                   ValidTestCaseRequest(r.testCases.value[i].value)
  {
    var v := CreateProblemViolations(r);
    if r.testCases.Some? {
      NestedViolationsEmpty(r.testCases.value);
    }
    if !NotBlank(r.title) { assert Violation("title", "Title cannot be blank") in v; }
    if !NotBlank(r.statement) { assert Violation("statement", "Statement cannot be blank") in v; }
    if r.difficulty.None? { assert Violation("difficulty", "Difficulty cannot be null") in v; }
    if r.timeLimit.None? { assert Violation("timeLimit", "Time limit must be provided") in v; }
    if r.memoryLimit.None? { assert Violation("memoryLimit", "Memory limit must be provided") in v; }
    if !NotEmpty(r.tags) { assert Violation("tags", "Tags cannot be empty") in v; }
    if !NotEmpty(r.testCases) { assert Violation("testCases", "Test cases cannot be empty") in v; }
  }

  /** `@NotNull problemId`, `@NotBlank code`, `@NotNull language`. */
  predicate ValidSubmitCodeRequest(r: SubmitCodeRequest) {
    r.problemId.Some? && NotBlank(r.code) && r.language.Some?
  }

  /** Code that is absent, empty, or only whitespace and control characters
      is rejected, whatever the other fields hold. */
  lemma SubmitCodeRejectsBlankCode(r: SubmitCodeRequest)
    requires r.code.None? || forall i :: 0 <= i < |r.code.value| ==> r.code.value[i] <= ' '
    ensures !ValidSubmitCodeRequest(r)
  {
  }
}
