/** The second survey form: title and content must both be filled in. */
module SurveyGrade {
  import opened Wrappers
  import opened Text
  import opened Types
  import opened Guards

  /** Why the second form refuses to go on. */
  datatype GradeError = TitleMissing | ContentMissing

  /** The checks of `validateAndFinish`, in the order they are made. */
  function GradeChecks(u: UserData): seq<Check<GradeError>>
  {
    [Check(!IsBlank(u.title), TitleMissing), Check(!IsBlank(u.content), ContentMissing)]
  }

  /** `validateAndFinish`: the early-return chain. */
  function ValidateGrade(u: UserData): (r: Verdict<GradeError>)
    ensures r.Proceed? <==> !IsBlank(u.title) && !IsBlank(u.content)
  {
    if IsBlank(u.title) then Blocked(TitleMissing)
    else if IsBlank(u.content) then Blocked(ContentMissing)
    else Proceed
  }

  /** The chain reports the first failing check: the title before the
      content, so with both blank only the title is reported. */
  lemma ValidateGradeIsFirstFailure(u: UserData)
    ensures ValidateGrade(u) == FirstFailure(GradeChecks(u))
    ensures IsBlank(u.title) ==> ValidateGrade(u) == Blocked(TitleMissing)
  {
    var checks := GradeChecks(u);
    if IsBlank(u.title) {
      FirstFailureAt(checks, 0);
    } else if IsBlank(u.content) {
      FirstFailureAt(checks, 1);
    }
  }

  /** The source's own test, `!x.trim()`: a title or content that trims to
      nothing blocks the form. */
  lemma TrimmedEmptyBlocks(u: UserData)
    requires Trim(u.title) == "" || Trim(u.content) == ""
    ensures ValidateGrade(u).Blocked?
  {
    BlankIffTrimEmpty(u.title);
    BlankIffTrimEmpty(u.content);
  }
}
