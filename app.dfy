/** The application shell: which screen is shown, the survey record being
    filled in and the design chosen for the ornament. */
module App {
  import opened Wrappers
  import opened Types
  import opened Guards
  import SC = SurveyCommon
  import SG = SurveyGrade

  /** The record every visit starts from: nothing chosen yet. */
  const InitialUserData: UserData := UserData("", "", [], "", "", "")

  // ---- partial updates of the survey record ----

  /** A partial survey record: the fields present override, the absent ones
      keep their value. */
  datatype UserDataPatch = UserDataPatch(
    name: Option<string>,
    affiliation: Option<string>,
    interests: Option<seq<string>>,
    theme: Option<string>,
    title: Option<string>,
    content: Option<string>)

  const NoChange: UserDataPatch := UserDataPatch(None, None, None, None, None, None)

  function Override<T>(prev: T, o: Option<T>): T
  {
    if o.Some? then o.value else prev
  }

  /** `{...prev, ...data}`. */
  function Merge(u: UserData, p: UserDataPatch): (r: UserData)
  {
    UserData(Override(u.name, p.name), Override(u.affiliation, p.affiliation),
      Override(u.interests, p.interests), Override(u.theme, p.theme),
      Override(u.title, p.title), Override(u.content, p.content))
  }

  /** The patch holding the fields of `q`, and those of `p` that `q` lacks. */
  function Then(p: UserDataPatch, q: UserDataPatch): UserDataPatch
  {
    UserDataPatch(if q.name.Some? then q.name else p.name,
      if q.affiliation.Some? then q.affiliation else p.affiliation,
      if q.interests.Some? then q.interests else p.interests,
      if q.theme.Some? then q.theme else p.theme,
      if q.title.Some? then q.title else p.title,
      if q.content.Some? then q.content else p.content)
  }

  /** A merge overrides exactly the supplied fields: a field changes only when
      the patch supplies it, and then takes the supplied value. */
  lemma MergeOverridesExactly(u: UserData, p: UserDataPatch)
    ensures Merge(u, p).name == (if p.name.Some? then p.name.value else u.name)
    ensures Merge(u, p).affiliation == (if p.affiliation.Some? then p.affiliation.value else u.affiliation)
    ensures Merge(u, p).interests == (if p.interests.Some? then p.interests.value else u.interests)
    ensures Merge(u, p).theme == (if p.theme.Some? then p.theme.value else u.theme)
    ensures Merge(u, p).title == (if p.title.Some? then p.title.value else u.title)
    ensures Merge(u, p).content == (if p.content.Some? then p.content.value else u.content)
  {
  }

  /** The empty patch changes nothing, a patch applied twice acts as once, and
      two patches in a row act as their combination. */
  lemma MergeLaws(u: UserData, p: UserDataPatch, q: UserDataPatch)
    ensures Merge(u, NoChange) == u
    ensures Merge(Merge(u, p), p) == Merge(u, p)
    ensures Merge(Merge(u, p), q) == Merge(u, Then(p, q))
  {
  }

  // ---- the screens ----

  /** Screens that show the tree or are reached from it, and so need a design. */
  predicate NeedsDesign(s: Step)
  {
    s == Tree || s == Ranking || s == Comments
  }

  class AppState {
    var step: Step
    var userData: UserData
    var design: Option<OrnamentDesign>

    /** A design exists on the tree screen and on the screens reached from it. */
    predicate Valid()
      reads this
    {
      NeedsDesign(step) ==> design.Some?
    }

    /** The tree scene is rendered only with a design. */
    predicate ShowsTree()
      reads this
    {
      step == Tree && design.Some?
    }

    constructor()
      ensures step == Main && userData == InitialUserData && design == None
      ensures Valid()
    {
      step := Main;
      userData := InitialUserData;
      design := None;
    }

    /** `updateUserData`: merge the supplied fields into the record. */
    method UpdateUserData(patch: UserDataPatch)
      modifies this
      ensures userData == Merge(old(userData), patch)
      ensures step == old(step) && design == old(design)
    {
      userData := Merge(userData, patch);
    }

    /** `handleResetAndHome`: back to the start with nothing recorded. */
    method ResetAndHome()
      modifies this
      ensures step == Main && userData == InitialUserData && design == None
      ensures Valid()
    {
      userData := InitialUserData;
      design := None;
      step := Main;
    }

    /** Starting from the main screen clears the record and opens the first
        form. */
    method Start()
      requires step == Main
      modifies this
      ensures userData == InitialUserData && step == Step.SurveyCommon && design == old(design)
      ensures Valid()
    {
      userData := InitialUserData;
      step := Step.SurveyCommon;
    }

    /** `handleInterestChange`: copy the interests, drop or append the clicked
        one, and write them back; a fourth interest is refused and nothing
        changes. */
    method ChangeInterest(interest: string) returns (accepted: bool)
      requires step == Step.SurveyCommon
      modifies this
      ensures accepted <==> SC.ToggleInterest(old(userData.interests), interest).Some?
      ensures accepted ==> userData == old(userData).(interests := SC.ToggleInterest(old(userData.interests), interest).value)
      ensures !accepted ==> userData == old(userData)
      ensures step == old(step) && design == old(design)
    {
      var interests := userData.interests;
      if interest in interests {
        interests := SC.RemoveAll(interests, interest);
      } else {
        if |interests| >= SC.MaxInterests {
          return false;
        }
        interests := interests + [interest];
      }
      UpdateUserData(NoChange.(interests := Some(interests)));
      accepted := true;
    }

    /** "Next" on the first form: the second form opens only when the checks
        pass. */
    method SubmitCommon() returns (verdict: Verdict<SC.CommonError>)
      requires step == Step.SurveyCommon
      modifies this
      ensures verdict == SC.ValidateCommon(userData)
      ensures step == (if verdict.Proceed? then Step.SurveyGrade else Step.SurveyCommon)
      ensures userData == old(userData) && design == old(design)
    {
      verdict := SC.ValidateCommon(userData);
      if verdict.Proceed? {
        step := Step.SurveyGrade;
      }
    }

    /** "Next" on the second form: the envelope animation starts only when the
        checks pass. */
    method SubmitGrade() returns (verdict: Verdict<SG.GradeError>)
      requires step == Step.SurveyGrade
      modifies this
      ensures verdict == SG.ValidateGrade(userData)
      ensures step == (if verdict.Proceed? then Animation else Step.SurveyGrade)
      ensures userData == old(userData) && design == old(design)
    {
      verdict := SG.ValidateGrade(userData);
      if verdict.Proceed? {
        step := Animation;
      }
    }

    /** "Back" on the second form returns to the first, answers kept. */
    method BackToCommon()
      requires step == Step.SurveyGrade
      modifies this
      ensures step == Step.SurveyCommon && userData == old(userData) && design == old(design)
    {
      step := Step.SurveyCommon;
    }

    method AnimationComplete()
      requires step == Animation
      modifies this
      ensures step == Customize && userData == old(userData) && design == old(design)
    {
      step := Customize;
    }

    /** Confirming a design records it and opens the tree. */
    method ConfirmDesign(d: OrnamentDesign)
      requires step == Customize
      modifies this
      ensures design == Some(d) && step == Tree && userData == old(userData)
      ensures Valid() && ShowsTree()
    {
      design := Some(d);
      step := Tree;
    }

    /** The ranking is reached from the tree and from the comment board. */
    method GoRanking()
      requires step == Tree || step == Comments
      requires Valid()
      modifies this
      ensures step == Ranking && userData == old(userData) && design == old(design)
      ensures Valid()
    {
      step := Ranking;
    }

    method GoComments()
      requires step == Tree
      requires Valid()
      modifies this
      ensures step == Comments && userData == old(userData) && design == old(design)
      ensures Valid()
    {
      step := Comments;
    }

    /** "Back" from the ranking or the comment board: to the tree when a design
        exists, otherwise a reset to the main screen. */
    method BackToTree()
      requires step == Ranking || step == Comments
      modifies this
      ensures old(design).Some? ==> step == Tree && userData == old(userData) && design == old(design)
      ensures old(design).None? ==> step == Main && userData == InitialUserData && design == None
      ensures Valid()
    {
      if design.Some? {
        step := Tree;
      } else {
        ResetAndHome();
      }
    }

    /** "New card" on the comment board: a reset, then the first form. */
    method NewCard()
      requires step == Comments
      modifies this
      ensures step == Step.SurveyCommon && userData == InitialUserData && design == None
      ensures Valid()
    {
      ResetAndHome();
      step := Step.SurveyCommon;
    }
  }

  /** Walking the forward chain with answers that pass both forms leads from
      the main screen to the tree, with the confirmed design recorded. */
  method ForwardChain(app: AppState, answers: UserData, d: OrnamentDesign)
    requires app.step == Main
    requires SC.ValidateCommon(answers).Proceed? && SG.ValidateGrade(answers).Proceed?
    modifies app
    ensures app.step == Tree && app.design == Some(d) && app.userData == answers
    ensures app.ShowsTree()
  {
    app.Start();
    app.UpdateUserData(UserDataPatch(Some(answers.name), Some(answers.affiliation),
      Some(answers.interests), Some(answers.theme), Some(answers.title), Some(answers.content)));
    var v1 := app.SubmitCommon();
    var v2 := app.SubmitGrade();
    app.AnimationComplete();
    app.ConfirmDesign(d);
  }
}
