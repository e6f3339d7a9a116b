/**
 * The sixteen preset colour swatches and which of them is highlighted for the
 * current colour.
 */
module Palette {
  import opened Text
  import opened Validate

  const PresetColors: seq<string> := [
    "#76d1ff", "#b6c9d7", "#ffb59c", "#c9c3a3",
    "#ff3b30", "#ff9500", "#ffcc00", "#34c759",
    "#8e8e93", "#1d1d1f", "#f2f2f7", "#FFFFFF",
    "#667eea", "#764ba2", "#f093fb", "#43e97b"
  ]

  /** Index of the one swatch written in upper case. */
  const WhiteSwatch := 11

  /**
   * Each swatch passes the hex test, two at a time: proving all sixteen
   * literals in one lemma exceeds the solver's resource limit.
   */
  lemma PresetPairValid0(i: nat)
    requires 0 <= i < 2
    ensures IsValidHex(PresetColors[i])
  {
    assert i == 0 || i == 1;
  }

  lemma PresetPairValid1(i: nat)
    requires 2 <= i < 4
    ensures IsValidHex(PresetColors[i])
  {
    assert i == 2 || i == 3;
  }

  lemma PresetPairValid2(i: nat)
    requires 4 <= i < 6
    ensures IsValidHex(PresetColors[i])
  {
    assert i == 4 || i == 5;
  }

  lemma PresetPairValid3(i: nat)
    requires 6 <= i < 8
    ensures IsValidHex(PresetColors[i])
  {
    assert i == 6 || i == 7;
  }

  lemma PresetPairValid4(i: nat)
    requires 8 <= i < 10
    ensures IsValidHex(PresetColors[i])
  {
    assert i == 8 || i == 9;
  }

  lemma PresetPairValid5(i: nat)
    requires 10 <= i < 12
    ensures IsValidHex(PresetColors[i])
  {
    assert i == 10 || i == 11;
  }

  lemma PresetPairValid6(i: nat)
    requires 12 <= i < 14
    ensures IsValidHex(PresetColors[i])
  {
    assert i == 12 || i == 13;
  }

  lemma PresetPairValid7(i: nat)
    requires 14 <= i < 16
    ensures IsValidHex(PresetColors[i])
  {
    assert i == 14 || i == 15;
  }

  lemma PresetColorsValid()
    ensures |PresetColors| == 16
    ensures forall i :: 0 <= i < |PresetColors| ==> IsValidHex(PresetColors[i])
  {
    forall i | 0 <= i < |PresetColors| ensures IsValidHex(PresetColors[i]) {
      SwatchValid(i);
    }
  }

  lemma SwatchValid(i: nat)
    requires i < |PresetColors|
    ensures IsValidHex(PresetColors[i])
  {
    if i < 2 {
      PresetPairValid0(i);
    } else if i < 4 {
      PresetPairValid1(i);
    } else if i < 6 {
      PresetPairValid2(i);
    } else if i < 8 {
      PresetPairValid3(i);
    } else if i < 10 {
      PresetPairValid4(i);
    } else if i < 12 {
      PresetPairValid5(i);
    } else if i < 14 {
      PresetPairValid6(i);
    } else {
      PresetPairValid7(i);
    }
  }

  /** Swatches highlighted as written: the swatch's own string compared with the stored colour. */
  function HighlightedAsWritten(current: string): set<nat> {
    set i | 0 <= i < |PresetColors| && PresetColors[i] == current
  }

  /** Swatches highlighted when the swatch is compared in the same (lower) case as the stored colour. */
  function Highlighted(current: string): set<nat> {
    set i | 0 <= i < |PresetColors| && ToLower(PresetColors[i]) == current
  }

  /**
   * As written, clicking the white swatch stores "#ffffff", and no stored
   * colour (always lower case) ever highlights that swatch.
   */
  lemma WhiteSwatchNeverHighlighted(current: string)
    requires IsStoredColor(current)
    ensures StoredColor(current, PresetColors[WhiteSwatch]) == "#ffffff"
    ensures WhiteSwatch !in HighlightedAsWritten(current)
    ensures WhiteSwatch !in HighlightedAsWritten(StoredColor(current, PresetColors[WhiteSwatch]))
  {
    var white := PresetColors[WhiteSwatch];
    PresetPairValid5(WhiteSwatch);
    assert white[1] == 'F';
    var stored := ToLower(white);
    assert stored == "#ffffff" by {
      assert forall k :: 0 <= k < 7 ==> stored[k] == LowerChar(white[k]);
    }
  }

  /** Compared case-insensitively, the swatch just clicked is always highlighted. */
  lemma ClickedSwatchHighlighted(current: string, i: nat)
    requires i < |PresetColors|
    ensures i in Highlighted(StoredColor(current, PresetColors[i]))
  {
    SwatchValid(i);
  }

  /** A highlighted swatch, when clicked, leaves the colour as it is. */
  lemma HighlightedSwatchIsCurrent(current: string, i: nat)
    requires IsStoredColor(current) && i in Highlighted(current)
    ensures StoredColor(current, PresetColors[i]) == current
  {
  }
}
