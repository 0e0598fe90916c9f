/** `ProblemService` of both trees: paged listing, details by id, and
    admin-only creation, over an in-memory problem repository. The
    online.judge service reads its page size from configuration (50 by
    default); the dsa one fixes it at 50. Both are otherwise the same. */
module ProblemService {
  import opened Wrappers
  import opened Text
  import opened Model
  import opened Requests
  import opened Paging
  import opened ProblemConverter
  import opened TestCaseConverter
  import opened UserUtil
  import EntityRules

  /** online.judge: `problems.list.page-size`, when not configured. */
  const DefaultPageSize := 50

  /** dsa: `PAGE_SIZE`. */
  const DsaPageSize := 50

  const NotAuthorizedToCreate := "User is not authorized to create problems."

  function ProblemNotFoundMessage(id: Id): (message: string) {
    "Problem with ID " + IntToString(id) + " not found"
  }

  /** `listTags`: the tag names, in stored order. */
  function ListTags(tags: seq<Tag>): (r: seq<ProblemTag>)
    ensures |r| == |tags|
    ensures forall i :: 0 <= i < |tags| ==> r[i] == tags[i].tagName
  {
    if tags == [] then [] else [tags[0].tagName] + ListTags(tags[1..])
  }

  /** Every test case carries a sample flag. */
  predicate FlagsPresent(ts: seq<TestCase>) {
    forall i :: 0 <= i < |ts| ==> ts[i].isSample.Some?
  }

  /** The test cases flagged as samples, in order. */
  function Samples(ts: seq<TestCase>): (r: seq<TestCase>)
    ensures forall t :: t in r <==> t in ts && t.isSample == Some(true)
    ensures |r| <= |ts|
  {
    if ts == [] then []
    else (if ts[0].isSample == Some(true) then [ts[0]] else []) + Samples(ts[1..])
  }

  /** `listSampleTestCases`: the sample test cases, in stored order.
      Filtering unboxes each `isSample`, so a null flag throws. */
  function ListSampleTestCases(ts: seq<TestCase>): (r: Result<seq<TestCase>, Error>)
    ensures r.Failure? <==> exists i :: 0 <= i < |ts| && ts[i].isSample.None?
    ensures r.Failure? ==> r.error == NullPointer
    ensures r.Success? ==> forall t :: t in r.value <==> t in ts && t.isSample == Some(true)
    ensures r.Success? ==> |r.value| <= |ts|
  {
    if FlagsPresent(ts) then Success(Samples(ts)) else Failure(NullPointer)
  }

  lemma {:induction false} SamplesAppend(a: seq<TestCase>, b: seq<TestCase>)
    ensures Samples(a + b) == Samples(a) + Samples(b)
  {
    if a == [] {
      assert a + b == b;
    } else {
      assert (a + b)[0] == a[0];
      assert (a + b)[1..] == a[1..] + b;
      SamplesAppend(a[1..], b);
    }
  }

  /** The filter works piecewise: the samples of a concatenation are the
      samples of the first part followed by those of the second. */
  lemma SamplesOfConcatenation(a: seq<TestCase>, b: seq<TestCase>)
    ensures ListSampleTestCases(a + b) ==
              if ListSampleTestCases(a).Success? && ListSampleTestCases(b).Success?
              then Success(ListSampleTestCases(a).value + ListSampleTestCases(b).value)
              else Failure(NullPointer)
  {
    SamplesAppend(a, b);
    if FlagsPresent(a + b) {
      assert forall i :: 0 <= i < |a| ==> a[i] == (a + b)[i];
      assert forall i :: 0 <= i < |b| ==> b[i] == (a + b)[|a| + i];
    } else {
      var i :| 0 <= i < |a + b| && (a + b)[i].isSample.None?;
      if i < |a| { assert a[i] == (a + b)[i]; } else { assert b[i - |a|] == (a + b)[i]; }
    }
  }

  /** A single test case is kept exactly when it is a sample; with the
      lemma above this fixes the result, order included. */
  lemma SamplesOfOne(t: TestCase)
    requires t.isSample.Some?
    ensures ListSampleTestCases([t]) == Success(if t.isSample.value then [t] else [])
  {
    assert [t][1..] == [];
    assert FlagsPresent([t]);
    assert Samples([t]) == (if t.isSample == Some(true) then [t] else []) + Samples([]);
    assert Samples([t]) == (if t.isSample.value then [t] else []);
  }

  /** Page `page` of problems, newest first (`newestFirst` is the
      repository's content sorted by creation time, descending), one summary
      per problem with its tag names, in page order. */
  function ListProblems(newestFirst: seq<Problem>, page: int, pageSize: int): (r: Result<seq<ProblemSummaryUi>, Error>)
    requires IsInt(page) && IsInt(pageSize)
    ensures r.Failure? <==> PageOf(newestFirst, page, pageSize).Failure?
    ensures r.Failure? ==> r.error == PageOf(newestFirst, page, pageSize).error
    ensures r.Success? ==>
              var content := PageOf(newestFirst, page, pageSize).value;
              && |r.value| == |content|
              && forall i :: 0 <= i < |content| ==>
                   r.value[i] == ToProblemSummaryUi(content[i], ListTags(content[i].tags))
  {
    var content :- PageOf(newestFirst, page, pageSize);
    Success(seq(|content|, i requires 0 <= i < |content| =>
                  ToProblemSummaryUi(content[i], ListTags(content[i].tags))))
  }

  /** The dsa listing: pages of at most fifty summaries. Pages from 1 to
      42949673 are served; above, the offset no longer fits an `int`. */
  function DsaListProblems(newestFirst: seq<Problem>, page: int): (r: Result<seq<ProblemSummaryUi>, Error>)
    requires IsInt(page)
    ensures r.Failure? <==> page < 1 || page > 42949673
    ensures page < 1 && page != INT_MIN ==> r == Failure(InvalidPage)
    ensures page == INT_MIN || page > 42949673 ==> r == Failure(OffsetTooLarge)
    ensures r.Success? ==> |r.value| <= DsaPageSize
    ensures r.Success? && 1 <= page ==>
              var content := Slice(newestFirst, page - 1, DsaPageSize);
              && |r.value| == |content|
              && forall i :: 0 <= i < |content| ==>
                   r.value[i] == ToProblemSummaryUi(content[i], ListTags(content[i].tags))
  {
    OneBasedPages(newestFirst, page, DsaPageSize);
    ListProblems(newestFirst, page, DsaPageSize)
  }

  /** Sixty problems: page 1 lists fifty, page 2 the remaining ten. */
  lemma SixtyProblems(newestFirst: seq<Problem>)
    requires |newestFirst| == 60
    ensures DsaListProblems(newestFirst, 1).Success? && |DsaListProblems(newestFirst, 1).value| == 50
    ensures DsaListProblems(newestFirst, 2).Success? && |DsaListProblems(newestFirst, 2).value| == 10
  {
    SixtyItemsInPagesOfFifty(newestFirst);
  }

  /** Details of the problem stored under `id`, with its tag names and only
      its sample test cases; an unknown id throws `ProblemNotFoundException`. */
  function GetProblemDetailsById(repo: map<Id, Problem>, id: Id): (r: Result<ProblemDetailsUi, Error>)
    ensures id !in repo ==> r == Failure(ProblemNotFound(ProblemNotFoundMessage(id)))
    ensures id in repo ==> (r.Success? <==> ListSampleTestCases(repo[id].testCases).Success?)
    ensures r.Success? ==>
              id in repo &&
              r.value == ToProblemDetailsUi(repo[id], ListTags(repo[id].tags),
                                            ListSampleTestCases(repo[id].testCases).value)
  {
    if id !in repo then Failure(ProblemNotFound(ProblemNotFoundMessage(id)))
    else
      var p := repo[id];
      var samples :- ListSampleTestCases(p.testCases);
      Success(ToProblemDetailsUi(p, ListTags(p.tags), samples))
  }

  /** A not-found message names its id: different ids give different messages. */
  lemma NotFoundMessageNamesId(a: Id, b: Id)
    requires ProblemNotFoundMessage(a) == ProblemNotFoundMessage(b)
    ensures a == b
  {
    ConcatCancel("Problem with ID ", IntToString(a), IntToString(b), " not found");
    IntToStringInjective(a, b);
  }

  /** What a client sees of a stored problem: its own title, statement,
      limits and tags, and a view of a test case only if that test case is a
      sample, every sample being shown. */
  lemma DetailsShowExactlySamples(repo: map<Id, Problem>, id: Id)
    requires GetProblemDetailsById(repo, id).Success?
    ensures id in repo
    ensures var d := GetProblemDetailsById(repo, id).value;
            var p := repo[id];
            && d.title == p.title && d.statement == p.statement
            && d.timeLimitInSecond == p.timeLimitSeconds && d.memoryLimitInMb == p.memoryLimitMb
            && |d.tags| == |p.tags|
            && (forall v :: v in d.sampleTestCases ==>
                  exists t :: t in p.testCases && t.isSample == Some(true) && ToTestCaseUi(t) == v)
            && (forall t :: t in p.testCases && t.isSample == Some(true) ==> ToTestCaseUi(t) in d.sampleTestCases)
  {
    var d := GetProblemDetailsById(repo, id).value;
    var p := repo[id];
    var samples := ListSampleTestCases(p.testCases).value;
    forall v | v in d.sampleTestCases
      ensures exists t :: t in p.testCases && t.isSample == Some(true) && ToTestCaseUi(t) == v
    {
      var k :| 0 <= k < |d.sampleTestCases| && d.sampleTestCases[k] == v;
      assert samples[k] in samples;
    }
    forall t | t in p.testCases && t.isSample == Some(true)
      ensures ToTestCaseUi(t) in d.sampleTestCases
    {
      var k :| 0 <= k < |samples| && samples[k] == t;
      assert d.sampleTestCases[k] == ToTestCaseUi(t);
    }
  }

  /** The caller is an authenticated `User` principal with the ADMIN role. */
  predicate IsAdmin(auth: Option<Authentication>) {
    var caller := GetCurrentAuthenticatedUser(auth);
    caller.Success? && caller.value.role == ADMIN
  }

  /** `createProblem`: only an admin may create a problem. The admin check
      precedes any use of the repository; the admin becomes the author, the
      problem is saved once, and the details returned are those of the
      saved problem. `self` is the identity of the new `Problem` object.
      A failure leaves the repository as it was. */
  function CreateProblem(auth: Option<Authentication>, problems: seq<Problem>, r: CreateProblemRequest, self: ProblemRef)
    : (e: Effect<ProblemDetailsUi, seq<Problem>>)
    ensures GetCurrentAuthenticatedUser(auth).Failure? ==>
              e == Effect(Failure(GetCurrentAuthenticatedUser(auth).error), problems)
    ensures GetCurrentAuthenticatedUser(auth).Success? && !IsAdmin(auth) ==>
              e == Effect(Failure(UserNotAuthorized(NotAuthorizedToCreate)), problems)
    ensures e.result.Failure? ==> e.store == problems
    ensures e.result.Success? <==>
              && IsAdmin(auth)
              && ToProblemFromCreateProblemRequest(r, self).Success?
              && ListSampleTestCases(ToProblemFromCreateProblemRequest(r, self).value.testCases).Success?
    ensures e.result.Success? ==>
              var saved := ToProblemFromCreateProblemRequest(r, self).value
                             .(createdBy := Some(GetCurrentAuthenticatedUser(auth).value));
              && e.store == problems + [saved]
              && e.result.value == ToProblemDetailsUi(saved, ListTags(saved.tags),
                                                      ListSampleTestCases(saved.testCases).value)
  {
    match GetCurrentAuthenticatedUser(auth)
    case Failure(err) => Effect(Failure(err), problems)
    case Success(caller) =>
      if caller.role != ADMIN then
        Effect(Failure(UserNotAuthorized(NotAuthorizedToCreate)), problems)
      else
        match ToProblemFromCreateProblemRequest(r, self)
        case Failure(err) => Effect(Failure(err), problems)
        case Success(problem) =>
          var saved := problem.(createdBy := Some(caller));
          match ListSampleTestCases(saved.testCases)
          case Failure(err) => Effect(Failure(err), problems)
          case Success(samples) =>
            Effect(Success(ToProblemDetailsUi(saved, ListTags(saved.tags), samples)), problems + [saved])
  }

  /** The views of the request's sample test cases, in request order. */
  function SampleRequestViews(rs: seq<CreateTestCaseRequest>): (views: seq<TestCaseUi>) {
    if rs == [] then []
    else
      (if rs[0].isSample == Some(true) then [TestCaseUi(rs[0].input, rs[0].expectedOutput, rs[0].explanation)] else [])
      + SampleRequestViews(rs[1..])
  }

  function ConvertAll(self: ProblemRef, rs: seq<CreateTestCaseRequest>): (ts: seq<TestCase>)
    ensures |ts| == |rs|
    ensures forall i :: 0 <= i < |rs| ==> ts[i] == ToTestCaseFromCreateTestCaseRequest(self, rs[i])
  {
    seq(|rs|, i requires 0 <= i < |rs| => ToTestCaseFromCreateTestCaseRequest(self, rs[i]))
  }

  /** Filtering converted test cases for samples and viewing them is the
      same as viewing the requests marked as samples. */
  lemma {:induction false} SampleViewsOfConverted(self: ProblemRef, rs: seq<CreateTestCaseRequest>)
    requires forall i :: 0 <= i < |rs| ==> rs[i].isSample.Some?
    ensures ListSampleTestCases(ConvertAll(self, rs)).Success?
    ensures ToTestCaseUis(ListSampleTestCases(ConvertAll(self, rs)).value) == SampleRequestViews(rs)
  {
    var ts := ConvertAll(self, rs);
    if rs != [] {
      assert ts[1..] == ConvertAll(self, rs[1..]);
      SampleViewsOfConverted(self, rs[1..]);
      var rest := ListSampleTestCases(ts[1..]).value;
      if rs[0].isSample == Some(true) {
        assert ListSampleTestCases(ts).value == [ts[0]] + rest;
        ToTestCaseUisAppend([ts[0]], rest);
      }
    }
  }

  /** An admin creating a problem sees it as requested: the request's title,
      statement, limits, difficulty and tags, and exactly the request's
      sample test cases, in order. */
  lemma CreatedDetailsReflectRequest(auth: Option<Authentication>, problems: seq<Problem>, r: CreateProblemRequest, self: ProblemRef)
    requires CreateProblem(auth, problems, r, self).result.Success?
    ensures r.tags.Some? && r.testCases.Some?
    ensures forall i :: 0 <= i < |r.testCases.value| ==> r.testCases.value[i].Some?
    ensures var d := CreateProblem(auth, problems, r, self).result.value;
            && d.title == r.title && d.statement == r.statement && d.difficulty == r.difficulty
            && d.timeLimitInSecond == r.timeLimit && d.memoryLimitInMb == r.memoryLimit
            && d.tags == r.tags.value
            && d.sampleTestCases == SampleRequestViews(Values(r.testCases.value))
  {
    var p := ToProblemFromCreateProblemRequest(r, self).value;
    var cases := Values(r.testCases.value);
    assert p.testCases == ConvertAll(self, cases);
    forall i | 0 <= i < |cases|
      ensures cases[i].isSample.Some?
    {
      assert p.testCases[i].isSample == cases[i].isSample;
    }
    SampleViewsOfConverted(self, cases);
  }

  /** A caller that is not an admin never reaches the repository: the
      outcome is an authorization error and the stored problems are unchanged. */
  lemma NonAdminTouchesNothing(auth: Option<Authentication>, problems: seq<Problem>, r: CreateProblemRequest, self: ProblemRef)
    requires !IsAdmin(auth)
    ensures CreateProblem(auth, problems, r, self).store == problems
    ensures CreateProblem(auth, problems, r, self).result.Failure?
    ensures CreateProblem(auth, problems, r, self).result.error.UserNotAuthorized?
  {
  }

  /** The request's rules are looser than the entity's: an admin's valid
      request with a time limit of 11 seconds is saved, although the `Problem`
      entity allows 1 to 10 seconds (Bean Validation at persist time would
      reject it). */
  lemma AcceptedRequestCanBreakEntityRules(admin: User, problems: seq<Problem>, self: ProblemRef)
    requires admin.role == ADMIN
    ensures var r := CreateProblemRequest(Some("Sum"), Some("Add two numbers."), Some(Difficulty("EASY")),
                                          Some(11.0), Some(256), Some([ProblemTag("MATH")]),
                                          Some([Some(CreateTestCaseRequest(Some("1 2"), Some("3"), Some(true), None))]));
            var e := CreateProblem(Some(Authentication(true, UserPrincipal(admin))), problems, r, self);
            && ValidCreateProblemRequest(r)
            && e.result.Success?
            && |e.store| == |problems| + 1
            && !EntityRules.ValidProblem(e.store[|problems|])
  {
    var t := CreateTestCaseRequest(Some("1 2"), Some("3"), Some(true), None);
    var r := CreateProblemRequest(Some("Sum"), Some("Add two numbers."), Some(Difficulty("EASY")),
                                  Some(11.0), Some(256), Some([ProblemTag("MATH")]), Some([Some(t)]));
    assert HasText("Sum") by { assert !IsTrimmable("Sum"[0]); }
    assert HasText("Add two numbers.") by { assert !IsTrimmable("Add two numbers."[0]); }
    assert HasText("1 2") by { assert !IsTrimmable("1 2"[0]); }
    assert HasText("3") by { assert !IsTrimmable("3"[0]); }
    TestCaseRequestValidity(t, None);
    CreateProblemRequestValidity(r);
    var p := ToProblemFromCreateProblemRequest(r, self).value;
    assert p.testCases[0].isSample == Some(true);
  }

  /** An admin's request with non-blank title and statement, every field the
      entity needs present and no null test case or sample flag is saved, and
      the stored problem is a valid entity exactly when the request also keeps
      the bounds the entity adds: a title of at most 50 characters, a
      statement of at most 50000, a time limit of 1 to 10 seconds and a memory
      limit of 1 to 1024 MB. */
  lemma CreatedProblemValidity(auth: Option<Authentication>, problems: seq<Problem>,
                               r: CreateProblemRequest, self: ProblemRef)
    requires IsAdmin(auth)
    requires NotBlank(r.title) && NotBlank(r.statement)
    requires r.difficulty.Some? && r.timeLimit.Some? && r.memoryLimit.Some?
    requires r.tags.Some? && r.testCases.Some?
    requires forall i :: 0 <= i < |r.testCases.value| ==>
               r.testCases.value[i].Some? && r.testCases.value[i].value.isSample.Some?
    ensures CreateProblem(auth, problems, r, self).result.Success?
    ensures EntityRules.ValidProblem(CreateProblem(auth, problems, r, self).store[|problems|]) <==>
              && SizeBetween(r.title, 0, 50) && SizeBetween(r.statement, 0, 50000)
              && 1.0 <= r.timeLimit.value <= 10.0 && 1 <= r.memoryLimit.value <= 1024
  {
    var p := ToProblemFromCreateProblemRequest(r, self);
    assert p.Success?;
    assert FlagsPresent(p.value.testCases) by {
      forall i | 0 <= i < |p.value.testCases| ensures p.value.testCases[i].isSample.Some? {
        assert r.testCases.value[i].Some?;
      }
    }
  }

  /** Cascaded validation skips a null test case, so a request whose only
      test case is null is valid; creating it then throws while converting,
      and nothing is stored. */
  lemma NullTestCasePassesValidationThenThrows(admin: User, problems: seq<Problem>, self: ProblemRef)
    requires admin.role == ADMIN
    ensures var r := CreateProblemRequest(Some("Sum"), Some("Add two numbers."), Some(Difficulty("EASY")),
                                          Some(2.0), Some(256), Some([ProblemTag("MATH")]), Some([None]));
            var e := CreateProblem(Some(Authentication(true, UserPrincipal(admin))), problems, r, self);
            && ValidCreateProblemRequest(r)
            && e == Effect(Failure(NullPointer), problems)
  {
    var r := CreateProblemRequest(Some("Sum"), Some("Add two numbers."), Some(Difficulty("EASY")),
                                  Some(2.0), Some(256), Some([ProblemTag("MATH")]), Some([None]));
    assert HasText("Sum") by { assert !IsTrimmable("Sum"[0]); }
    assert HasText("Add two numbers.") by { assert !IsTrimmable("Add two numbers."[0]); }
    CreateProblemRequestValidity(r);
    assert r.testCases.value[0].None?;
  }
}
