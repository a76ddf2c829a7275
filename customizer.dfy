/** The design picker: the theme decides the colour, the colour decides the
    palette, and the visitor picks one of the palette's patterns. */
module Customizer {
  import opened Types
  import opened Constants

  class OrnamentCustomizer {
    var colorKey: OrnamentColor
    var config: Palette
    var selectedPattern: OrnamentDesign

    /** The palette shown is the colour's, and the selection is one of its
        patterns. */
    predicate Valid()
      reads this
    {
      config == OrnamentData(colorKey) && selectedPattern in config.patterns
    }

    /** Yellow, with its first ("plain") pattern selected. */
    constructor()
      ensures colorKey == Yellow && config == OrnamentData(Yellow)
      ensures selectedPattern == OrnamentData(Yellow).patterns[0] && selectedPattern.id == "plain"
      ensures Valid()
    {
      colorKey := Yellow;
      config := OrnamentData(Yellow);
      selectedPattern := OrnamentData(Yellow).patterns[0];
    }

    /** The effect run whenever the survey theme changes: colour from the theme,
        its palette, and the palette's first pattern. */
    method ThemeEffect(theme: string)
      modifies this
      ensures colorKey == MapThemeToColor(theme) && config == OrnamentData(colorKey)
      ensures |config.patterns| > 0 && selectedPattern == config.patterns[0] && selectedPattern.id == "plain"
      ensures Valid()
    {
      var derivedColor := MapThemeToColor(theme);
      PalettesWellFormed(derivedColor);
      colorKey := derivedColor;
      config := OrnamentData(derivedColor);
      selectedPattern := OrnamentData(derivedColor).patterns[0];
    }

    /** Clicking the `k`-th thumbnail selects that pattern of the palette shown. */
    method PatternClick(k: nat)
      requires Valid() && k < |config.patterns|
      modifies this
      ensures colorKey == old(colorKey) && config == old(config)
      ensures selectedPattern == config.patterns[k]
      ensures Valid()
    {
      selectedPattern := config.patterns[k];
    }

    /** Confirming hands over the current selection unchanged, and it belongs to
        the palette of the current colour. */
    method Confirm() returns (d: OrnamentDesign)
      requires Valid()
      ensures d == selectedPattern && d in OrnamentData(colorKey).patterns
    {
      d := selectedPattern;
    }
  }
}
