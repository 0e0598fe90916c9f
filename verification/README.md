# dsa-platform back end, modelled in Dafny

The back end of the DSA practice platform exists as two package trees in
the middle of a migration, `com.dsa.platform.backend` (dsa) and
`com.online.judge.backend` (online.judge). This project models the
sequential logic of both:

- the Bean Validation constraints of the entities (`User`, `Problem`,
  `TestCase`, `Submission`) and of the request bodies (register, login,
  create-problem with nested test cases, submit-code), including both user
  handle patterns, stated as predicates and as one-pass matchers;
- user registration over a user table, with the two `UserConverter`s;
- the problem service of both trees (paged listing, details by id,
  admin-only creation) with `ProblemConverter` and `TestCaseConverter`;
- the submission service and `SubmissionConverter`;
- `ResultListener.handleFinalResult`'s acknowledgement decision;
- `UserUtil.getCurrentAuthenticatedUser`.

Conventions:

- Nullable Java values are `Option`s; a thrown exception is a `Failure`
  carrying an `Error` with the exception's message. A page offset above
  `Integer.MAX_VALUE`, which Spring Data JPA refuses, is the `OffsetTooLarge` error. A service returns an
  `Effect`: its result and the store it leaves behind. A failure always
  leaves the store as it was (the check happens before the save, or the
  transaction rolls back).
- Repositories are sequences or maps. "Newest first" listings take the
  repository's content already sorted by the sort key; a page is a window of
  it (`Paging`). `page - 1` is computed with Java `int` wrap-around. The configured page
  sizes (default 50) are parameters, with the defaults as constants.
- `@NotBlank` is read as Hibernate Validator implements it: the value is
  non-null and `trim()` leaves something, so every character up to U+0020
  (control characters included) counts as blank and no other character
  does; a Unicode space such as U+2003 makes a value non-blank.
- The password encoder and the `@Email` grammar are function parameters.
  The security context's authentication is passed in as a parameter.
- Ids, times, limits and metrics are abstract integers or reals, compared
  only against bounds.
- Where the two trees hold the same code (the test-case converter, the
  create-problem request, the problem service apart from its page size, the
  register constraints), one member models both; the table names both places.
- `ResultListener` records the calls made on the channel as a log. Whether
  processing, the ack and the nack return normally is given per delivery.

Module layout: `Wrappers` (Option/Result), `Text` (character classes,
`@NotBlank`/`@Size`/`@Pattern` helpers, `Long.toString`), `Model` (entities,
views, errors), `Handles`, `Requests`, `EntityRules`, `DsaUserConverter`,
`JudgeUserConverter`, `TestCaseConverter`, `ProblemConverter`,
`SubmissionConverter`, `Paging`, `UserUtil`, `UserService`,
`ProblemService`, `SubmissionService`, `ResultListener`.

## Model

| member | source | states |
|---|---|---|
| Handles.MatchJudgeHandle | backend/src/main/java/com/online/judge/backend/model/User.java:74-75 | Returns true exactly when the string matches the online.judge handle pattern, decided in one left-to-right pass. |
| Handles.MatchDsaHandle | backend/src/main/java/com/dsa/platform/backend/model/User.java:66-67 | Returns true exactly when the string matches `^[a-zA-Z]\w{2,20}$`, decided in one pass. |
| Handles.JudgeHandleShape | backend/src/main/java/com/online/judge/backend/model/User.java:63-75 | An accepted online.judge handle has 1 to 20 characters, starts with an ASCII letter, holds only letters, digits, '_' and '-', and ends in a letter or digit. |
| Handles.JudgeHandleRejectsDoubledSeparator | backend/src/main/java/com/online/judge/backend/model/User.java:70-75 | Any handle containing "__", "--", "_-" or "-_" anywhere is rejected. |
| Handles.DsaHandleShape | backend/src/main/java/com/dsa/platform/backend/model/User.java:66-67 | An accepted dsa handle has 3 to 21 characters, starts with an ASCII letter and holds only letters, digits and '_', never '-'. |
| Handles.JudgeHandleIsDsaHandle | backend/src/main/java/com/dsa/platform/backend/model/User.java:67 | An online.judge handle of at least 3 characters without '-' is also a dsa handle. |
| Handles.DsaHandleIsJudgeHandle | backend/src/main/java/com/online/judge/backend/model/User.java:75 | A dsa handle of at most 20 characters with no doubled or trailing '_' is also an online.judge handle. |
| Handles.GrammarsDiffer | backend/src/main/java/com/online/judge/backend/model/User.java:75 | The two patterns differ: a 21-letter handle is dsa-only and "ab-c" is online.judge-only. |
| EntityRules.JudgeUserShape | backend/src/main/java/com/online/judge/backend/model/User.java:53-76 | A valid online.judge user has non-blank first and last names of at most 50 characters and a handle of 1 to 20 characters that starts with an ASCII letter, holds only letters, digits, '_' and '-', never has two separators side by side, and ends in a letter or digit. |
| EntityRules.DsaUserShape | backend/src/main/java/com/dsa/platform/backend/model/User.java:54-68 | A valid dsa user has non-blank names of at most 50 characters and a 3-to-21-character handle without '-'. |
| EntityRules.AsUserDetails | backend/src/main/java/com/online/judge/backend/model/User.java:110-143 | The user's authorities are exactly one, the role's name; the user name is the handle, the password the hash; all four account flags are true (same code at backend/src/main/java/com/dsa/platform/backend/model/User.java:104-137). |
| EntityRules.AuthoritiesIdentifyRole | backend/src/main/java/com/dsa/platform/backend/model/User.java:104-107 | Two users have the same authorities exactly when they have the same role. |
| EntityRules.ExplanationIsOptional | backend/src/main/java/com/dsa/platform/backend/model/TestCase.java:45-49 | A test case's validity never depends on its explanation. |
| EntityRules.MetricsAreOptional | backend/src/main/java/com/online/judge/backend/model/Submission.java:73-79 | A submission's validity never depends on its execution time or memory. |
| Requests.RegisterRequestValidity | backend/src/main/java/com/online/judge/backend/dto/request/RegisterRequest.java:10-21 | A registration is valid exactly when the handle is non-blank with 3 to 20 characters, the email non-blank and well formed, the password non-blank with at least 8 characters, and each name absent or ASCII letters only (the dsa tree's services use a `dto.request.RegisterRequest` record taken to carry the same constraints). |
| Requests.RegisterRequestOptionalFields | backend/src/main/java/com/online/judge/backend/dto/request/RegisterRequest.java:19-21 | Absent or empty names and any role keep a valid registration valid. |
| Requests.LoginRequestValidity | backend/src/main/java/com/dsa/platform/backend/dto/request/LoginRequest.java:7-13 | A login is valid exactly when the handle is non-blank with 3 to 20 characters and the password non-blank with at least 8. |
| Requests.LoginViolationExamples | backend/src/main/java/com/dsa/platform/backend/dto/request/LoginRequest.java:8-12 | An all-space password and a two-letter handle each report exactly their own annotation message. |
| Requests.TestCaseRequestValidity | backend/src/main/java/com/online/judge/backend/dto/request/CreateTestCaseRequest.java:9-13 | A test-case request is valid exactly when input and expected output are non-blank and the sample flag is present; the explanation never matters. |
| Requests.NestedViolationsEmpty | backend/src/main/java/com/online/judge/backend/dto/request/CreateProblemRequest.java:21 | The cascaded test-case violations are empty exactly when every non-null element is valid; a null element is skipped. |
| Requests.CreateProblemRequestValidity | backend/src/main/java/com/online/judge/backend/dto/request/CreateProblemRequest.java:14-21 | A create-problem request is valid exactly when title and statement are non-blank, difficulty and both limits present, tags and test cases non-empty, and every non-null test case valid, a null element passing (the dsa record at backend/src/main/java/com/dsa/platform/backend/dto/request/CreateProblemRequest.java:14-21 has the same annotations; its element type, the dsa `CreateTestCaseRequest`, is taken to be the online.judge record). |
| Requests.SubmitCodeRejectsBlankCode | backend/src/main/java/com/online/judge/backend/dto/request/SubmitCodeRequest.java:8 | Absent, empty or whitespace-only code makes a submit request invalid. |
| DsaUserConverter.ToUserFromRegisterRequestWithoutPassword | backend/src/main/java/com/dsa/platform/backend/converter/UserConverter.java:8-16 | Handle, email and names are copied; the role is USER whatever the request says; password hash, id and creation time are unset. |
| JudgeUserConverter.ToUserFromRegisterRequestWithoutPassword | backend/src/main/java/com/online/judge/backend/converter/UserConverter.java:8-16 | Handle, email and names are copied; the role is the request's role, or USER when it is null; password hash, id and creation time are unset. |
| JudgeUserConverter.ConvertersAgreeUnlessAdmin | backend/src/main/java/com/online/judge/backend/converter/UserConverter.java:14 | The two converters give the same user exactly when the request does not ask for ADMIN. |
| UserService.RegisterUser | backend/src/main/java/com/dsa/platform/backend/service/UserService.java:40-64 | A taken handle fails with "Handle '<h>' is already taken.", else a taken email with "Email '<e>' is already registered.", both leaving the store unchanged; it succeeds exactly when both are free, appending one user with the request's fields, role USER and the encoder's output as hash, and returns that user. |
| UserService.RegisterKeepsUnique | backend/src/main/java/com/dsa/platform/backend/service/UserService.java:55-63 | Registration preserves the invariant that no two stored users share a handle or an email. |
| UserService.SecondRegistrationFails | backend/src/test/java/com/dsa/platform/backend/service/UserServiceTest.java:75-83 | After a successful registration, registering the same handle again fails with the handle message and changes nothing. |
| UserService.HandleCheckedFirst | backend/src/main/java/com/dsa/platform/backend/service/UserService.java:55-63 | When both handle and email are taken, the handle error is reported. |
| UserService.AcceptedHandleCanBreakEntityRules | backend/src/main/java/com/dsa/platform/backend/service/UserService.java:40-52 | A valid registration with handle "ab-cd" is saved although the dsa user entity forbids '-' in a handle. |
| UserService.AcceptedNamelessUserBreaksEntityRules | backend/src/main/java/com/dsa/platform/backend/service/UserService.java:40-52 | A valid registration without names is saved although the user entity requires both names. |
| TestCaseConverter.ToTestCaseUi | backend/src/main/java/com/dsa/platform/backend/converter/TestCaseConverter.java:10-12 | The view carries the test case's input, output and explanation. |
| TestCaseConverter.ToTestCaseUis | backend/src/main/java/com/dsa/platform/backend/converter/TestCaseConverter.java:14-16 | The list view has one entry per test case, position by position (same code in backend/src/main/java/com/online/judge/backend/converter/TestCaseConverter.java). |
| TestCaseConverter.ToTestCaseUisAppend | backend/src/main/java/com/dsa/platform/backend/converter/TestCaseConverter.java:14-16 | Viewing a concatenation is concatenating the views. |
| TestCaseConverter.ToTestCaseFromCreateTestCaseRequest | backend/src/main/java/com/online/judge/backend/converter/TestCaseConverter.java:18-26 | Input from input, output from expected output, explanation and sample flag copied unchanged, back-reference to the given problem, no id. |
| TestCaseConverter.RequestThenView | backend/src/main/java/com/online/judge/backend/converter/TestCaseConverter.java:10-26 | Converting a request and viewing it shows the request's input, expected output and explanation. |
| TestCaseConverter.ConvertedTestCaseValidity | backend/src/main/java/com/dsa/platform/backend/model/TestCase.java:36-59 | A converted test case is a valid entity exactly when its request was valid. |
| ProblemConverter.ToProblemSummaryUi | backend/src/main/java/com/dsa/platform/backend/converter/ProblemConverter.java:17-19 | The summary copies id, title and difficulty and passes the given tags through. |
| ProblemConverter.ToProblemDetailsUi | backend/src/main/java/com/dsa/platform/backend/converter/ProblemConverter.java:21-32 | Details copy id, title, statement, both limits, difficulty and tags, with one test-case view per given test case, in order. |
| ProblemConverter.ToProblemFromCreateProblemRequest | backend/src/main/java/com/dsa/platform/backend/converter/ProblemConverter.java:34-53 | Fails with a null-pointer error exactly when the tag list, the test-case list or one of its elements is null; otherwise copies title, statement, difficulty and limits, creates one tag and one test case per request entry in order, each pointing back to the new problem, and sets no id, author or creation time. |
| SubmissionConverter.ToSubmissionFromRequest | backend/src/main/java/com/online/judge/backend/converter/SubmissionConverter.java:38-44 | A new submission is WAITING_FOR_EXECUTION with the request's code and language; id, user, problem, time and metrics are unset. |
| SubmissionConverter.ToSubmissionDetailsUi | backend/src/main/java/com/online/judge/backend/converter/SubmissionConverter.java:14-26 | Details carry id, status, language, submission time, code and metrics unchanged, and an empty test-result list. |
| SubmissionConverter.ToSubmissionSummaryUi | backend/src/main/java/com/online/judge/backend/converter/SubmissionConverter.java:28-36 | The summary carries id, status, language and submission time unchanged. |
| SubmissionConverter.SummaryAgreesWithDetails | backend/src/main/java/com/online/judge/backend/converter/SubmissionConverter.java:14-36 | The summary is the details view with code, metrics and results dropped. |
| SubmissionConverter.FreshSubmissionDetails | backend/src/main/java/com/online/judge/backend/converter/SubmissionConverter.java:25-42 | A fresh submission with its user and problem attached shows in its details as waiting, unmeasured, without results and with the request's code. |
| SubmissionConverter.ConvertedSubmissionValidity | backend/src/main/java/com/online/judge/backend/model/Submission.java:41-79 | Once user and problem are attached, a converted submission is valid exactly when the code is non-blank and the language present, so every valid request yields a valid entity. |
| Paging.IntPredecessor | backend/src/main/java/com/online/judge/backend/service/ProblemService.java:61 | `page - 1` on a Java int stays an int, wrapping from the least value to the greatest. |
| Paging.Slice | backend/src/main/java/com/online/judge/backend/service/ProblemService.java:60-62 | A 0-based page holds at most `size` items, starting at item `index * size`, in order. |
| Paging.PageOf | backend/src/main/java/com/online/judge/backend/service/ProblemService.java:60-62 | Page `page` fails exactly when `page - 1` is negative, the size below one, or the offset `(page - 1) * size` above `Integer.MAX_VALUE`; the first two give `InvalidPage`, the last `OffsetTooLarge`; otherwise it is the slice at index `page - 1`. |
| Paging.OneBasedPages | backend/src/main/java/com/online/judge/backend/service/SubmissionService.java:44-45 | Page p >= 1 is the slice starting at item (p - 1) * size when that offset fits an int, and fails with `OffsetTooLarge` when it does not; pages from 0 down to -2147483647 fail with `InvalidPage`. |
| Paging.LeastPageWraps | backend/src/main/java/com/online/judge/backend/service/ProblemService.java:61 | Page -2147483648 is not refused as invalid: `page - 1` wraps to `Integer.MAX_VALUE`, so with size 1 the page is empty and with a larger size the offset is too large. |
| Paging.ItemOnItsPage | backend/src/main/java/com/online/judge/backend/service/ProblemService.java:60-62 | Item j appears on 0-based page j / size at position j % size. |
| Paging.FirstPagesArePrefix | backend/src/main/java/com/online/judge/backend/service/ProblemService.java:60-62 | Reading pages 1 to k in turn yields the first k * size items once each, in order. |
| Paging.SixtyItemsInPagesOfFifty | backend/src/test/java/com/dsa/platform/backend/integration/LifecycleIT.java:172-179 | Sixty items in pages of fifty: 50, then 10, then none. |
| ProblemService.ListTags | backend/src/main/java/com/online/judge/backend/service/ProblemService.java:126-128 | The tag names, one per tag, in stored order. |
| ProblemService.ListSampleTestCases | backend/src/main/java/com/online/judge/backend/service/ProblemService.java:137-139 | Fails with a null-pointer error exactly when some sample flag is null; otherwise keeps exactly the test cases flagged as samples. |
| ProblemService.SamplesOfConcatenation | backend/src/main/java/com/online/judge/backend/service/ProblemService.java:137-139 | The samples of a concatenation are the first part's followed by the second's, so the filter preserves order. |
| ProblemService.SamplesOfOne | backend/src/main/java/com/online/judge/backend/service/ProblemService.java:138 | A single test case is kept exactly when it is flagged as a sample. |
| ProblemService.ListProblems | backend/src/main/java/com/online/judge/backend/service/ProblemService.java:57-65 | Fails exactly when the page request fails, with the same error; otherwise one summary per problem on the page, in order, each with its tag names. |
| ProblemService.DsaListProblems | backend/src/main/java/com/dsa/platform/backend/service/ProblemService.java:33-60 | Pages of at most 50 summaries; fails exactly for pages below 1 or above 42949673; `InvalidPage` for pages below 1 other than the least int, `OffsetTooLarge` for the least int and for pages above 42949673; a served page p lists, for each problem of slice p - 1 in order, its summary with its id, title, difficulty and tag names. |
| ProblemService.SixtyProblems | backend/src/test/java/com/dsa/platform/backend/integration/LifecycleIT.java:172-179 | With sixty problems, page 1 lists fifty and page 2 lists ten. |
| ProblemService.GetProblemDetailsById | backend/src/main/java/com/online/judge/backend/service/ProblemService.java:77-91 | An unknown id fails with "Problem with ID <id> not found"; a stored problem gives its details with its tag names and sample test cases (same code at backend/src/main/java/com/dsa/platform/backend/service/ProblemService.java:72-86). |
| ProblemService.NotFoundMessageNamesId | backend/src/main/java/com/online/judge/backend/service/ProblemService.java:89 | Different ids give different not-found messages. |
| ProblemService.DetailsShowExactlySamples | backend/src/main/java/com/online/judge/backend/service/ProblemService.java:84-85 | The details show the stored title, statement and limits, a view of every sample test case and of nothing else. |
| ProblemService.CreateProblem | backend/src/main/java/com/online/judge/backend/service/ProblemService.java:102-117 | Authentication failures and non-admin callers fail before the repository is used and leave it unchanged; success happens exactly for an admin with convertible request, appends the converted problem with the admin as author, and returns that saved problem's details (same code at backend/src/main/java/com/dsa/platform/backend/service/ProblemService.java:97-111). |
| ProblemService.SampleViewsOfConverted | backend/src/main/java/com/online/judge/backend/service/ProblemService.java:115-116 | Filtering converted test cases for samples and viewing them equals viewing the sample requests, in request order. |
| ProblemService.CreatedDetailsReflectRequest | backend/src/test/java/com/online/judge/backend/service/ProblemServiceTest.java:135-166 | For a request without null test cases, the returned details carry the request's title, statement, difficulty, limits and tags and exactly its sample test cases, in order. |
| ProblemService.NullTestCasePassesValidationThenThrows | backend/src/main/java/com/dsa/platform/backend/converter/ProblemConverter.java:47-49 | A request whose test-case list holds a null element passes validation, then creation fails with a null-pointer error and the repository is unchanged. |
| ProblemService.NonAdminTouchesNothing | backend/src/test/java/com/online/judge/backend/service/ProblemServiceTest.java:169-188 | A caller that is not an authenticated admin gets an authorization error and the repository is unchanged. |
| EntityRules.ValidProblem | backend/src/main/java/com/dsa/platform/backend/model/Problem.java:52-104 | A dsa problem entity is valid when title and statement are non-blank with at most 50 and 50000 characters, the time limit is present and from 1 to 10 seconds, the memory limit present and from 1 to 1024 MB, and difficulty and author are present; the limits and author must be present because their columns are `nullable = false`, since `@Min`/`@Max` accept null. |
| ProblemService.CreatedProblemValidity | backend/src/main/java/com/dsa/platform/backend/model/Problem.java:52-80 | An admin's request with non-blank title and statement, difficulty, limits, tags and test cases present and no null test case or sample flag is saved, and the stored problem is a valid entity exactly when the title has at most 50 characters, the statement at most 50000, the time limit is 1 to 10 seconds and the memory limit 1 to 1024 MB. |
| ProblemService.AcceptedRequestCanBreakEntityRules | backend/src/main/java/com/dsa/platform/backend/model/Problem.java:68-71 | A valid request with an 11-second time limit is saved although the problem entity allows 1 to 10 seconds. |
| SubmissionService.ListSubmissions | backend/src/main/java/com/online/judge/backend/service/SubmissionService.java:41-49 | Fails exactly when the page request fails, with the same error; otherwise one summary per submission on the page, in order, at most a page size of them. |
| SubmissionService.ListedSummariesAgreeWithDetails | backend/src/main/java/com/online/judge/backend/service/SubmissionService.java:46-47 | Every listed summary agrees with the details of the same submission. |
| SubmissionService.GetSubmissionDetailsById | backend/src/main/java/com/online/judge/backend/service/SubmissionService.java:60-73 | Succeeds exactly for a stored id, with the converter's details of that submission (its id, code, status and no test results); an unknown id fails with "Submission with ID <id> not found". |
| SubmissionService.NotFoundMessageNamesId | backend/src/main/java/com/online/judge/backend/service/SubmissionService.java:71 | Different ids give different not-found messages. |
| ResultListener.HandleFinalResult | backend/src/main/java/com/online/judge/backend/queue/ResultListener.java:27-42 | Success: exactly one ack(tag, false) and no nack; processing failure: only nack(tag, false, false); ack failure: the ack then a nack on the same tag; at most one of each, never requeue; an exception escapes only when the nack itself fails. |
| ResultListener.Consume | backend/src/main/java/com/online/judge/backend/queue/ResultListener.java:27-42 | Over a run of deliveries the log is each delivery's own channel calls, in delivery order, and the escaped count is the number of deliveries whose nack failed; hence one ack per successfully processed result, one nack per delivery not cleanly acknowledged, only the deliveries' own tags, nothing requeued, at most two calls per delivery. |
| ResultListener.TranscriptAppend | backend/src/main/java/com/online/judge/backend/queue/ResultListener.java:27-42 | The calls for a run of deliveries are the calls for its first part followed by those for the rest, and the escaped counts add up. |
| ResultListener.TranscriptKeepsDeliveriesApart | backend/src/main/java/com/online/judge/backend/queue/ResultListener.java:31-40 | A good delivery followed by a failed one gives an ack of the first tag, then a nack of the second. |
| ResultListener.TranscriptSettles | backend/src/main/java/com/online/judge/backend/queue/ResultListener.java:27-42 | A run's calls hold one ack per successfully processed result and one nack per delivery not cleanly acknowledged, at most two calls per delivery, only the deliveries' own tags, nothing requeued, and no more escapes than nacks. |
| UserUtil.GetCurrentAuthenticatedUser | backend/src/main/java/com/online/judge/backend/util/UserUtil.java:20-32 | No or unauthenticated authentication fails with "No authenticated user found in security context."; a `User` principal is returned unchanged; any other principal fails with "The authenticated principal is not an instance of the User class.". |
## Left out

- The judging pipeline (status aggregation, terminal-state guard, per-test-case upsert, dispatch on submit) is described for the system but has no code: `TestCaseResultService.processTestResult` has an empty body and `SubmissionController.submit` is a stub. The model follows the code, and `processTestResult` appears only as a step that may return or throw.
- Controllers, HTTP status codes, request-parameter defaults and `AuthController` (JWT issuance): web plumbing outside the modelled services.
- `SecurityConfig` and BCrypt: replaced by the abstract `PasswordEncoder` function.
- JPA: generated ids, `@CreationTimestamp`, `@Transactional` atomicity, lazy loading, and validation at persist time. Saving returns the entity it was given. The entity rules are stated as predicates (`EntityRules`) but no save checks them, so the gap lemmas show requests the services accept that the entity rules reject.
- Spring's `PageRequest` and `Sort` internals beyond the window they select; the exception `PageRequest.of` throws is the single `InvalidPage` error, without its message.
- The refusal of offsets above `Integer.MAX_VALUE` belongs to Spring Data JPA, which is not part of this model; it is modelled as the `OffsetTooLarge` error, without its message or exception type.
- A null element in a create-problem request's tag list is not represented: the dsa tag converter builds a tag with a null name from it rather than failing, and tags are modelled as present values.
- The online.judge problem service calls `com.online.judge.backend.converter.ProblemConverter`, which is not part of this model; it is taken to behave as the dsa `ProblemConverter`.
- Floating point: time limits and metrics are reals. Hibernate's handling of NaN and infinities under `@Min`/`@Max` is not modelled.
- `@Email`: its grammar belongs to the validation library; it is a parameter.
- String lengths count Dafny characters, not UTF-16 code units; supplementary characters are not distinguished.
- Enumeration constants of difficulty, tag and language are not part of the model; each value is named by a string.
- The dsa `dto.request.RegisterRequest` record, which the dsa user service, user converter and auth controller import, is not part of this model; it is taken to carry the online.judge record's constraints and fields, role included. The dsa `dto/RegisterRequest.java` class is not imported by any modelled code.
- The dsa `dto.request.CreateTestCaseRequest` record, the element type of the dsa create-problem request and the input of the dsa test-case converter, is not part of this model; it is taken to carry the online.judge record's fields and constraints.
- The dsa problem service's `UserUtil` is not part of this model; it is taken to behave as the online.judge one.
- `BCrypt`'s rejection of a null password is not modelled: the encoder is a total function.
- A null role on a stored user (`getRole().equals` would throw) is not modelled: every construction path sets the role.
- Cross-tree type mismatches are not reconciled: UUID against Long ids, dsa `Problem.timeLimitSeconds` against the converter's `getTimeLimitSecond()`, `Submission.submissionTimeSeconds` against the converter's `getSubmittedAt()`, the `Double` `Submission.memoryUsedMb` against the `Integer` `SubmissionDetailsUi.memoryUsed`, and the dsa `Problem` entity, which declares no tag or test-case list, against the dsa converter's `setTags`/`setTestCases` and the dsa service's `getTags`/`getTestCases`. The model uses one abstract field for each pair.
- The problem and user summaries inside the submission views come from converters that are not part of this model; the views omit them.
- Logging, concurrency, RabbitMQ redelivery and the listener container's reaction to an exception escaping the handler: `ResultListener.Consume` only counts such exceptions.
