/** `TestCaseConverter` (the same in both trees): test-case entities to
    views, and test-case requests to entities. */
module TestCaseConverter {
  import opened Wrappers
  import opened Model
  import opened Requests
  import EntityRules

  /** A test case's view: input, expected output and explanation. */
  function ToTestCaseUi(t: TestCase): (ui: TestCaseUi)
    ensures ui.input == t.input && ui.output == t.output && ui.explanation == t.explanation
  {
    TestCaseUi(t.input, t.output, t.explanation)
  }

  /** The list form: one view per test case, in the same order. */
  function ToTestCaseUis(ts: seq<TestCase>): (uis: seq<TestCaseUi>)
    ensures |uis| == |ts|
    ensures forall i :: 0 <= i < |ts| ==> uis[i] == ToTestCaseUi(ts[i])
  {
    if ts == [] then [] else [ToTestCaseUi(ts[0])] + ToTestCaseUis(ts[1..])
  }

  /** Mapping commutes with concatenation, so order is kept piecewise. */
  lemma ToTestCaseUisAppend(a: seq<TestCase>, b: seq<TestCase>)
    ensures ToTestCaseUis(a + b) == ToTestCaseUis(a) + ToTestCaseUis(b)
  {
  }

  /** A test-case entity from its request, pointing back to `problem`; the
      explanation and sample flag are copied whatever the flag says. */
  function ToTestCaseFromCreateTestCaseRequest(problem: ProblemRef, r: CreateTestCaseRequest): (t: TestCase)
    ensures t.input == r.input && t.output == r.expectedOutput
    ensures t.explanation == r.explanation && t.isSample == r.isSample
    ensures t.problem == Some(problem) && t.id.None?
  {
    TestCase(None, Some(problem), r.isSample, r.explanation, r.input, r.expectedOutput)
  }

  /** Converting a request and viewing the result shows the request's input,
      expected output and explanation. */
  lemma RequestThenView(problem: ProblemRef, r: CreateTestCaseRequest)
    ensures ToTestCaseUi(ToTestCaseFromCreateTestCaseRequest(problem, r))
         == TestCaseUi(r.input, r.expectedOutput, r.explanation)
  {
  }

  /** The request's constraints and the entity's agree: a test-case request
      is valid exactly when the entity it converts to is. */
  lemma ConvertedTestCaseValidity(problem: ProblemRef, r: CreateTestCaseRequest)
    ensures EntityRules.ValidTestCase(ToTestCaseFromCreateTestCaseRequest(problem, r)) <==> ValidTestCaseRequest(r)
  {
    TestCaseRequestValidity(r, r.explanation);
  }
}
