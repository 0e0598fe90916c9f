/** dsa `ProblemConverter` (with `TagConverter`): problem entities to
    summary and detail views, and create-problem requests to entities. */
module ProblemConverter {
  import opened Wrappers
  import opened Model
  import opened Requests
  import opened TestCaseConverter

  /** A summary: id, title and difficulty of the problem, with the given tags. */
  function ToProblemSummaryUi(p: Problem, tags: seq<ProblemTag>): (s: ProblemSummaryUi)
    ensures s.id == p.id && s.title == p.title && s.difficulty == p.difficulty
    ensures s.tags == tags
  {
    ProblemSummaryUi(p.id, p.title, p.difficulty, tags)
  }

  /** Details: the problem's fields and limits, the given tags, and one view
      per given sample test case, in order. */
  function ToProblemDetailsUi(p: Problem, tags: seq<ProblemTag>, samples: seq<TestCase>): (d: ProblemDetailsUi)
    ensures d.id == p.id && d.title == p.title && d.statement == p.statement
    ensures d.timeLimitInSecond == p.timeLimitSeconds && d.memoryLimitInMb == p.memoryLimitMb
    ensures d.difficulty == p.difficulty && d.tags == tags
    ensures |d.sampleTestCases| == |samples|
    ensures forall i :: 0 <= i < |samples| ==> d.sampleTestCases[i] == ToTestCaseUi(samples[i])
  {
    ProblemDetailsUi(p.id, p.title, p.statement, p.timeLimitSeconds, p.memoryLimitMb, p.difficulty,
                     tags, ToTestCaseUis(samples))
  }

  /** `TagConverter.toTagFromProblemTag` */
  function ToTagFromProblemTag(problem: ProblemRef, tag: ProblemTag): (t: Tag) {
    Tag(tag, Some(problem))
  }

  /** A new problem entity from a request; `self` is the identity of the new
      object, which every tag and test case points back to. Id, author and
      creation time stay unset. Streaming a null list throws, and so does
      converting a null test-case element. */
  function ToProblemFromCreateProblemRequest(r: CreateProblemRequest, self: ProblemRef): (res: Result<Problem, Error>)
    ensures res.Failure? <==>
              || r.tags.None? || r.testCases.None?
              || exists i :: 0 <= i < |r.testCases.value| && r.testCases.value[i].None?
    ensures res.Failure? ==> res.error == NullPointer
    ensures res.Success? ==>
              var p := res.value;
              && p.title == r.title && p.statement == r.statement && p.difficulty == r.difficulty
              && p.timeLimitSeconds == r.timeLimit && p.memoryLimitMb == r.memoryLimit
              && p.id.None? && p.createdBy.None? && p.createdAt.None?
    ensures res.Success? ==>
              && |res.value.tags| == |r.tags.value|
              && forall i :: 0 <= i < |r.tags.value| ==>
                   res.value.tags[i] == Tag(r.tags.value[i], Some(self))
    ensures res.Success? ==>
              && |res.value.testCases| == |r.testCases.value|
              && forall i :: 0 <= i < |r.testCases.value| ==>
                   r.testCases.value[i].Some? &&
                   res.value.testCases[i] == ToTestCaseFromCreateTestCaseRequest(self, r.testCases.value[i].value)
  {
    if r.tags.None? || r.testCases.None? then Failure(NullPointer)
    else if exists i :: 0 <= i < |r.testCases.value| && r.testCases.value[i].None? then Failure(NullPointer)
    else
      var tags := r.tags.value;
      var cases := r.testCases.value;
      Success(Problem(
        None, r.title, r.statement, r.timeLimit, r.memoryLimit, r.difficulty, None, None,
        seq(|tags|, i requires 0 <= i < |tags| => ToTagFromProblemTag(self, tags[i])),
        seq(|cases|, i requires 0 <= i < |cases| => ToTestCaseFromCreateTestCaseRequest(self, cases[i].value))))
  }
}
