/** The records and enumerations shared by the client's components. Fields the
    client compares or forwards as raw text (an affiliation coming back from the
    post store, a theme that may still be unset) are strings; the enumerations
    give their admissible values. */
module Types {
  import opened Wrappers

  /** The screens of the application, in the order a visitor meets them. */
  datatype Step = Main | SurveyCommon | SurveyGrade | Animation | Customize | Tree | Ranking | Comments

  const AllSteps: seq<Step> := [Main, SurveyCommon, SurveyGrade, Animation, Customize, Tree, Ranking, Comments]

  /** A visitor's grade or role; it partitions the tree into rooms. */
  datatype Affiliation = Grade1 | Grade2 | Grade3 | AdvancedMajor | Professor
  {
    function Label(): string
    {
      match this
      case Grade1 => "1학년"
      case Grade2 => "2학년"
      case Grade3 => "3학년"
      case AdvancedMajor => "전공심화"
      case Professor => "교수님"
    }
  }

  const AllAffiliations: seq<Affiliation> := [Grade1, Grade2, Grade3, AdvancedMajor, Professor]

  /** The topic a visitor writes about. */
  datatype Theme = Memories | Worries | Resolutions
  {
    function Label(): string
    {
      match this
      case Memories => "올해의 추억"
      case Worries => "현재의 고민"
      case Resolutions => "미래를 위한 다짐"
    }
  }

  const AllThemes: seq<Theme> := [Memories, Worries, Resolutions]

  datatype OrnamentColor = Yellow | Red | Green

  predicate IsAffiliationLabel(s: string)
  {
    exists k :: 0 <= k < |AllAffiliations| && AllAffiliations[k].Label() == s
  }

  predicate IsThemeLabel(s: string)
  {
    exists k :: 0 <= k < |AllThemes| && AllThemes[k].Label() == s
  }

  /** What a visitor enters during the survey. The empty string stands for an
      affiliation or theme not chosen yet. */
  datatype UserData = UserData(
    name: string,
    affiliation: string,
    interests: seq<string>,
    theme: string,
    title: string,
    content: string)

  /** The documented ranges of the survey record: affiliation and theme unset
      or one of their labels. */
  predicate WellFormedUserData(u: UserData)
  {
    && (u.affiliation == "" || IsAffiliationLabel(u.affiliation))
    && (u.theme == "" || IsThemeLabel(u.theme))
  }

  /** A catalogue entry of the ornament designs. */
  datatype OrnamentDesign = OrnamentDesign(id: string, cap: string, shape: string)

  /** An ornament hung on the shared tree. */
  datatype PlacedOrnament = PlacedOrnament(
    id: string,
    userId: string,
    userName: string,
    affiliation: string,
    design: OrnamentDesign,
    panelIndex: int,
    slotIndex: Option<int>,
    x: real,
    y: real,
    message: string)

  const PanelCount: nat := 18
  const SlotCount: nat := 7

  /** The documented field ranges of a placed ornament: panel 0..17, slot 0..6
      when present, coordinates in [0, 1]. */
  predicate WellFormedOrnament(o: PlacedOrnament)
  {
    && 0 <= o.panelIndex < PanelCount
    && (o.slotIndex.Some? ==> 0 <= o.slotIndex.value < SlotCount)
    && 0.0 <= o.x <= 1.0
    && 0.0 <= o.y <= 1.0
  }

  /** One row of the interest ranking returned by the post store. */
  datatype RankingItem = RankingItem(interest: string, count: int)

  datatype Comment = Comment(
    id: string,
    postId: string,
    commenterName: string,
    affiliation: string,
    commentContent: string,
    timestamp: string)

  /** A post as the post store lists it. */
  datatype PostListItem = PostListItem(
    id: string,
    name: string,
    affiliation: string,
    title: string,
    content: string,
    timestamp: string)

  /** The enumerations have exactly 8, 5 and 3 values, each listed once, and
      their labels tell the values apart. */
  lemma EnumerationSizes()
    ensures |AllSteps| == 8 && forall s: Step :: s in AllSteps
    ensures forall i, j :: 0 <= i < j < |AllSteps| ==> AllSteps[i] != AllSteps[j]
    ensures |AllAffiliations| == 5 && forall a: Affiliation :: a in AllAffiliations
    ensures forall a: Affiliation, b: Affiliation :: a.Label() == b.Label() ==> a == b
    ensures |AllThemes| == 3 && forall t: Theme :: t in AllThemes
    ensures forall t: Theme, u: Theme :: t.Label() == u.Label() ==> t == u
  {
    forall s: Step ensures s in AllSteps {
      match s
      case Main => assert AllSteps[0] == s;
      case SurveyCommon => assert AllSteps[1] == s;
      case SurveyGrade => assert AllSteps[2] == s;
      case Animation => assert AllSteps[3] == s;
      case Customize => assert AllSteps[4] == s;
      case Tree => assert AllSteps[5] == s;
      case Ranking => assert AllSteps[6] == s;
      case Comments => assert AllSteps[7] == s;
    }
    forall a: Affiliation ensures a in AllAffiliations {
      AffiliationLabelOf(a);
    }
    forall t: Theme ensures t in AllThemes {
      ThemeLabelOf(t);
    }
  }

  /** Every affiliation is listed, so its label is an affiliation label; the
      empty string (unset) is not one. */
  lemma AffiliationLabelOf(a: Affiliation)
    ensures a in AllAffiliations && IsAffiliationLabel(a.Label())
    ensures !IsAffiliationLabel("")
  {
    var k := match a
      case Grade1 => 0
      case Grade2 => 1
      case Grade3 => 2
      case AdvancedMajor => 3
      case Professor => 4;
    assert AllAffiliations[k] == a;
  }

  /** Every theme is listed, so its label is a theme label; the empty string
      (unset) is not one. */
  lemma ThemeLabelOf(t: Theme)
    ensures t in AllThemes && IsThemeLabel(t.Label())
    ensures !IsThemeLabel("")
  {
    var k := match t
      case Memories => 0
      case Worries => 1
      case Resolutions => 2;
    assert AllThemes[k] == t;
  }
}
