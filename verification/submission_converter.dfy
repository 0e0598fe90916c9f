/** online.judge `SubmissionConverter`: code submissions to entities, and
    entities to detail and summary views. The problem and user summaries the
    views embed come from converters that are not part of this model. */
module SubmissionConverter {
  import opened Wrappers
  import opened Model
  import opened Requests
  import EntityRules

  /** A new submission waits for execution and carries the request's code
      and language; everything else, the requested problem id included, is
      left for the caller to fill in. */
  function ToSubmissionFromRequest(r: SubmitCodeRequest): (s: Submission)
    ensures s.status == Some(WAITING_FOR_EXECUTION)
    ensures s.code == r.code && s.language == r.language
    ensures s.id.None? && s.user.None? && s.problem.None? && s.submittedAt.None?
    ensures s.executionTimeSeconds.None? && s.memoryUsedMb.None?
  {
    Submission(None, None, None, None, Some(WAITING_FOR_EXECUTION), r.language, r.code, None, None)
  }

  /** Details carry the submission's fields unchanged and, as yet, no
      per-test-case results. */
  function ToSubmissionDetailsUi(s: Submission): (d: SubmissionDetailsUi)
    ensures d.id == s.id && d.status == s.status && d.language == s.language
    ensures d.submittedAt == s.submittedAt && d.code == s.code
    ensures d.executionTime == s.executionTimeSeconds && d.memoryUsed == s.memoryUsedMb
    ensures d.testResults == []
  {
    SubmissionDetailsUi(s.id, s.status, s.language, s.submittedAt, s.code,
                        s.executionTimeSeconds, s.memoryUsedMb, [])
  }

  function ToSubmissionSummaryUi(s: Submission): (v: SubmissionSummaryUi)
    ensures v.id == s.id && v.status == s.status && v.language == s.language
    ensures v.submittedAt == s.submittedAt
  {
    SubmissionSummaryUi(s.id, s.status, s.language, s.submittedAt)
  }

  /** The summary is the details view with code, metrics and results dropped. */
  lemma SummaryAgreesWithDetails(s: Submission)
    ensures var d := ToSubmissionDetailsUi(s);
            ToSubmissionSummaryUi(s) == SubmissionSummaryUi(d.id, d.status, d.language, d.submittedAt)
  {
  }

  /** A fresh submission, once its user and problem are attached, shows as
      waiting, unmeasured and without results. */
  lemma FreshSubmissionDetails(r: SubmitCodeRequest, u: User, p: Problem)
    ensures var d := ToSubmissionDetailsUi(ToSubmissionFromRequest(r).(user := Some(u), problem := Some(p)));
            d.status == Some(WAITING_FOR_EXECUTION) && d.executionTime.None? && d.memoryUsed.None?
            && d.testResults == [] && d.code == r.code
  {
  }

  /** Once its user and problem are attached, a converted submission is a
      valid entity exactly when the request's code is non-blank and its
      language present; in particular every valid request gives one. */
  lemma ConvertedSubmissionValidity(r: SubmitCodeRequest, u: User, p: Problem)
    ensures var s := ToSubmissionFromRequest(r).(user := Some(u), problem := Some(p));
            EntityRules.ValidSubmission(s) <==> Text.NotBlank(r.code) && r.language.Some?
    ensures ValidSubmitCodeRequest(r) ==>
              EntityRules.ValidSubmission(ToSubmissionFromRequest(r).(user := Some(u), problem := Some(p)))
  {
  }
}
