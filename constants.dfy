/** The client's constant tables: ranking categories and their images, the
    ornament palettes per colour, the theme-to-colour rule and the seven slot
    anchors of the tree. */
module Constants {
  import opened Types

  // ---- ranking categories ----

  const Etc: string := "기타"

  /** The eight official interest categories, in the order the ranking lists
      them before sorting. */
  const OfficialCategories: seq<string> := [
    "브랜드 디자인",
    "편집/출판 디자인",
    "UI/UX 디자인",
    "그래픽/일러스트레이션",
    "모션/영상 디자인",
    "3D/제품 비주얼라이제이션 디자인",
    "레터링/활자 디자인",
    Etc
  ]

  /** The picture shown for each ranking category. */
  const RankImages: map<string, string> := map[
    "브랜드 디자인" := "https://i.imgur.com/vANoYXL.png",
    "편집/출판 디자인" := "https://i.imgur.com/paP8tuF.png",
    "UI/UX 디자인" := "https://i.imgur.com/XuB5tfQ.png",
    "그래픽/일러스트레이션" := "https://i.imgur.com/nIMBg6v.png",
    "모션/영상 디자인" := "https://i.imgur.com/0Rx7qHP.png",
    "3D/제품 비주얼라이제이션 디자인" := "https://i.imgur.com/QJfhdY9.png",
    "레터링/활자 디자인" := "https://i.imgur.com/8WwNUgs.png",
    Etc := "https://i.imgur.com/zJiBViP.png"
  ]

  predicate Distinct<T(==)>(s: seq<T>)
  {
    forall i, j :: 0 <= i < j < |s| ==> s[i] != s[j]
  }

  /** The tail of a list without repetitions has none either, and does not
      hold the head. */
  lemma DistinctTail<T>(s: seq<T>)
    requires Distinct(s) && s != []
    ensures Distinct(s[1..]) && s[0] !in s[1..]
  {
    forall i, j | 0 <= i < j < |s| - 1 ensures s[1..][i] != s[1..][j] {
      assert s[1..][i] == s[i + 1] && s[1..][j] == s[j + 1];
    }
  }

  /** There are eight distinct official categories, "기타" among them, and
      each one has a picture. */
  lemma OfficialCategoriesWellFormed()
    ensures |OfficialCategories| == 8 && Distinct(OfficialCategories)
    ensures Etc in OfficialCategories
    ensures forall c :: c in OfficialCategories ==> c in RankImages
    ensures forall c :: c in RankImages ==> c in OfficialCategories
  {
  }

  // ---- ornament palettes ----

  /** One colour's entry of the ornament catalogue. */
  datatype Palette = Palette(caption: string, accent: string, patterns: seq<OrnamentDesign>)

  const PatternIds: seq<string> := ["plain", "dot", "star", "snow", "stripe1", "stripe2"]

  /** The catalogue, one palette per colour. */
  function OrnamentData(color: OrnamentColor): Palette
  {
    match color
    case Yellow => Palette("추억", "#f5b400", [
      OrnamentDesign("plain", "https://i.imgur.com/bQ7Rfza.png", "https://i.imgur.com/zKtjAX7.png"),
      OrnamentDesign("dot", "https://i.imgur.com/BCSPZE1.png", "https://i.imgur.com/hD4oE1b.png"),
      OrnamentDesign("star", "https://i.imgur.com/TdV7sJm.png", "https://i.imgur.com/bHbSqx3.png"),
      OrnamentDesign("snow", "https://i.imgur.com/pWkO6qb.png", "https://i.imgur.com/SjnAzAJ.png"),
      OrnamentDesign("stripe1", "https://i.imgur.com/AdlhJN0.png", "https://i.imgur.com/6uiU5YA.png"),
      OrnamentDesign("stripe2", "https://i.imgur.com/LwpNDIR.png", "https://i.imgur.com/ujYQOfU.png")])
    case Red => Palette("고민", "#c63926", [
      OrnamentDesign("plain", "https://i.imgur.com/hkHu9Eb.png", "https://i.imgur.com/VPnVPam.png"),
      OrnamentDesign("dot", "https://i.imgur.com/HnPoieL.png", "https://i.imgur.com/Un0xHIP.png"),
      OrnamentDesign("star", "https://i.imgur.com/xfCzHIu.png", "https://i.imgur.com/qQkixfI.png"),
      OrnamentDesign("snow", "https://i.imgur.com/3meCnRR.png", "https://i.imgur.com/JWSjR9n.png"),
      OrnamentDesign("stripe1", "https://i.imgur.com/8OJgTRS.png", "https://i.imgur.com/TZx9lSj.png"),
      OrnamentDesign("stripe2", "https://i.imgur.com/6G4J6xV.png", "https://i.imgur.com/9AT23K3.png")])
    case Green => Palette("다짐", "#0f7d8c", [
      OrnamentDesign("plain", "https://i.imgur.com/q6d9qMg.png", "https://i.imgur.com/57dM8PS.png"),
      OrnamentDesign("dot", "https://i.imgur.com/0m62Uic.png", "https://i.imgur.com/BQOqZMO.png"),
      OrnamentDesign("star", "https://i.imgur.com/LBTty3f.png", "https://i.imgur.com/b8aUxEk.png"),
      OrnamentDesign("snow", "https://i.imgur.com/VAqncS6.png", "https://i.imgur.com/vgtcsuV.png"),
      OrnamentDesign("stripe1", "https://i.imgur.com/H0MDosO.png", "https://i.imgur.com/di8bXGL.png"),
      OrnamentDesign("stripe2", "https://i.imgur.com/wJOtZWG.png", "https://i.imgur.com/DIU5tmp.png")])
  }

  /** Every palette has six patterns, with the ids plain, dot, star, snow,
      stripe1 and stripe2 in that order; so every palette has a first pattern,
      a "plain" one. */
  lemma PalettesWellFormed(color: OrnamentColor)
    ensures |OrnamentData(color).patterns| == |PatternIds| == 6
    ensures forall k :: 0 <= k < 6 ==> OrnamentData(color).patterns[k].id == PatternIds[k]
    ensures OrnamentData(color).patterns[0].id == "plain"
  {
  }

  // ---- theme to colour ----

  /** The colour that belongs to a theme. */
  function ThemeColor(t: Theme): OrnamentColor
  {
    match t
    case Memories => Yellow
    case Worries => Red
    case Resolutions => Green
  }

  /** The survey theme, compared as text, decides the ornament colour; an
      unset or unknown theme falls back to yellow. */
  function MapThemeToColor(theme: string): OrnamentColor
  {
    if theme == "올해의 추억" then Yellow
    else if theme == "현재의 고민" then Red
    else if theme == "미래를 위한 다짐" then Green
    else Yellow
  }

  /** The text rule agrees with the colour of each theme on the theme's label,
      and every other text (the unset theme included) maps to yellow. */
  lemma MapThemeToColorCorrect(t: Theme, other: string)
    requires !IsThemeLabel(other)
    ensures MapThemeToColor(t.Label()) == ThemeColor(t)
    ensures MapThemeToColor(other) == Yellow
  {
    ThemeLabelOf(t);
    if other == Memories.Label() {
      ThemeLabelOf(Memories);
    } else if other == Worries.Label() {
      ThemeLabelOf(Worries);
    } else if other == Resolutions.Label() {
      ThemeLabelOf(Resolutions);
    }
  }

  // ---- slot anchors ----

  /** A slot's marker position (`dot`) and ornament position (`orb`), as
      fractions of the panel's width and height. */
  datatype SlotPoint = SlotPoint(dotX: real, dotY: real, orbX: real, orbY: real)

  const SlotPoints: seq<SlotPoint> := [
    SlotPoint(0.88, 0.29, 0.75, 0.22),
    SlotPoint(0.88, 0.36, 0.6, 0.33),
    SlotPoint(0.88, 0.43, 0.56, 0.4),
    SlotPoint(0.88, 0.5, 0.46, 0.48),
    SlotPoint(0.88, 0.62, 0.28, 0.63),
    SlotPoint(0.88, 0.71, 0.16, 0.75),
    SlotPoint(0.88, 0.8, 0.12, 0.83)
  ]

  /** `orbX || dotX`: a zero orb coordinate is falsy and falls back to the dot. */
  function SlotX(slotIndex: nat): real
    requires slotIndex < |SlotPoints|
  {
    var p := SlotPoints[slotIndex];
    if p.orbX != 0.0 then p.orbX else p.dotX
  }

  /** `orbY || dotY`, as `SlotX`. */
  function SlotY(slotIndex: nat): real
    requires slotIndex < |SlotPoints|
  {
    var p := SlotPoints[slotIndex];
    if p.orbY != 0.0 then p.orbY else p.dotY
  }

  /** There are seven slots; no orb coordinate is zero, so the ornament always
      goes to the orb position; the orb heights strictly increase down the
      tree; and every coordinate lies in [0, 1]. */
  lemma SlotPointsWellFormed()
    ensures |SlotPoints| == SlotCount == 7
    ensures forall i :: 0 <= i < 7 ==> SlotX(i) == SlotPoints[i].orbX && SlotY(i) == SlotPoints[i].orbY
    ensures forall i, j :: 0 <= i < j < 7 ==> SlotPoints[i].orbY < SlotPoints[j].orbY
    ensures forall i :: 0 <= i < 7 ==> 0.0 <= SlotX(i) <= 1.0 && 0.0 <= SlotY(i) <= 1.0
  {
  }
}
