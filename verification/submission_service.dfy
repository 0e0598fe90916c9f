/** online.judge `SubmissionService`: paged listing and details by id over
    an in-memory submission repository. */
module SubmissionService {
  import opened Wrappers
  import opened Text
  import opened Model
  import opened Paging
  import opened SubmissionConverter

  /** `submissions.list.page-size`, when not configured. */
  const DefaultPageSize := 50

  function SubmissionNotFoundMessage(id: Id): (message: string) {
    "Submission with ID " + IntToString(id) + " not found"
  }

  /** Page `page` of submissions, newest first (`newestFirst` is the
      repository's content sorted by submission time, descending), one
      summary per submission, in page order. */
  function ListSubmissions(newestFirst: seq<Submission>, page: int, pageSize: int): (r: Result<seq<SubmissionSummaryUi>, Error>)
    requires IsInt(page) && IsInt(pageSize)
    ensures r.Failure? <==> PageOf(newestFirst, page, pageSize).Failure?
    ensures r.Failure? ==> r.error == PageOf(newestFirst, page, pageSize).error
    ensures r.Success? ==>
              var content := PageOf(newestFirst, page, pageSize).value;
              && |r.value| == |content| <= pageSize
              && forall i :: 0 <= i < |content| ==> r.value[i] == ToSubmissionSummaryUi(content[i])
  {
    var content :- PageOf(newestFirst, page, pageSize);
    Success(seq(|content|, i requires 0 <= i < |content| => ToSubmissionSummaryUi(content[i])))
  }

  /** Each listed summary agrees with the details of the same submission. */
  lemma ListedSummariesAgreeWithDetails(newestFirst: seq<Submission>, page: int, pageSize: int, i: nat)
    requires IsInt(page) && IsInt(pageSize)
    requires ListSubmissions(newestFirst, page, pageSize).Success?
    requires i < |ListSubmissions(newestFirst, page, pageSize).value|
    ensures var s := PageOf(newestFirst, page, pageSize).value[i];
            var summary := ListSubmissions(newestFirst, page, pageSize).value[i];
            var details := ToSubmissionDetailsUi(s);
            && summary.id == details.id && summary.status == details.status
            && summary.language == details.language && summary.submittedAt == details.submittedAt
  {
    SummaryAgreesWithDetails(PageOf(newestFirst, page, pageSize).value[i]);
  }

  /** Details of the submission stored under `id`; an unknown id throws
      `SubmissionNotFoundException`. */
  function GetSubmissionDetailsById(repo: map<Id, Submission>, id: Id): (r: Result<SubmissionDetailsUi, Error>)
    ensures r.Success? <==> id in repo
    ensures id !in repo ==> r == Failure(SubmissionNotFound(SubmissionNotFoundMessage(id)))
    ensures id in repo ==> r == Success(ToSubmissionDetailsUi(repo[id]))
    ensures id in repo ==> r.value.id == repo[id].id && r.value.code == repo[id].code
                           && r.value.status == repo[id].status && r.value.testResults == []
  {
    if id in repo then Success(ToSubmissionDetailsUi(repo[id]))
    else Failure(SubmissionNotFound(SubmissionNotFoundMessage(id)))
  }

  /** A not-found message names its id: different ids give different messages. */
  lemma NotFoundMessageNamesId(a: Id, b: Id)
    requires SubmissionNotFoundMessage(a) == SubmissionNotFoundMessage(b)
    ensures a == b
  {
    ConcatCancel("Submission with ID ", IntToString(a), IntToString(b), " not found");
    IntToStringInjective(a, b);
  }
}
