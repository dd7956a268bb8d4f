/** The reading settings of the article view: the documented ranges, the
    font and colour choices offered, and the defaults. */
module ReaderSettings {
  import ColorUtils

  datatype Settings = Settings(
    fontSize: int,
    lineHeight: real,
    fontFamily: string,
    fontFamilyName: string,
    backgroundColor: string,
    textColor: string)

  datatype FontFamily = FontFamily(value: string, title: string)

  datatype ColorPreset = ColorPreset(name: string, description: string, backgroundColor: string, textColor: string)

  /** The documented ranges: font size 12-32 px, line height 1.2-2.5. */
  predicate InRange(s: Settings) {
    12 <= s.fontSize <= 32 && 1.2 <= s.lineHeight <= 2.5
  }

  const FontFamilies: seq<FontFamily> := [
    FontFamily("'Inter', system-ui, -apple-system, sans-serif", "Inter"),
    FontFamily("'Georgia', 'Times New Roman', serif", "Georgia"),
    FontFamily("'Helvetica Neue', 'Helvetica', 'Arial', sans-serif", "Helvetica"),
    FontFamily("'Menlo', 'Monaco', 'Courier New', monospace", "Monospace"),
    FontFamily("'Verdana', sans-serif", "Verdana"),
    FontFamily("'Segoe UI', 'Roboto', sans-serif", "Segoe UI"),
    FontFamily("'Palatino', 'Palatino Linotype', serif", "Palatino"),
    FontFamily("'Comic Sans MS', 'Chalkboard SE', sans-serif", "Comic Sans")
  ]

  const ColorPresets: seq<ColorPreset> := [
    ColorPreset("经典白色", "明亮清晰，适合白天阅读", "#ffffff", "#000000"),
    ColorPreset("护眼米色", "温暖柔和，减少眼部疲劳", "#f5f5dc", "#2c3e50"),
    ColorPreset("冷色调", "清爽舒适，适合长时间阅读", "#e8f4f8", "#1a365d"),
    ColorPreset("浅绿护眼", "自然放松，缓解视觉压力", "#e8f5e9", "#1b5e20"),
    ColorPreset("羊皮纸", "复古质感，阅读体验温馨", "#fdf6e3", "#4a3c31"),
    ColorPreset("夜间阅读", "深蓝背景，保护夜间视力", "#1e3a5f", "#e8f4f8"),
    ColorPreset("深色模式", "高对比深色，适合暗光环境", "#1a1a2e", "#eee8d5"),
    ColorPreset("暖色调", "温馨舒适，营造阅读氛围", "#fff5eb", "#4a3728"),
    ColorPreset("高对比度", "黑白分明，文字清晰醒目", "#000000", "#ffffff"),
    ColorPreset("淡雅灰", "简洁优雅，现代简约风格", "#f8f9fa", "#212529")
  ]

  const Default: Settings := Settings(
    16, 1.6,
    "'Inter', system-ui, -apple-system, sans-serif", "Inter",
    "#ffffff", "#000000")

  /** The defaults are the first font and the first preset, within range. */
  lemma DefaultConsistent()
    ensures InRange(Default)
    ensures (Default.fontFamily, Default.fontFamilyName) == (FontFamilies[0].value, FontFamilies[0].title)
    ensures (Default.backgroundColor, Default.textColor)
            == (ColorPresets[0].backgroundColor, ColorPresets[0].textColor)
  {
  }

  /** The presets' colours as (background, text) pairs, the input of the
      palette derivation. */
  function PresetPairs(): (r: seq<(string, string)>)
    ensures |r| == |ColorPresets|
    ensures forall i :: 0 <= i < |r| ==> r[i] == (ColorPresets[i].backgroundColor, ColorPresets[i].textColor)
  {
    seq(|ColorPresets|, i requires 0 <= i < |ColorPresets| =>
      (ColorPresets[i].backgroundColor, ColorPresets[i].textColor))
  }

  /** Every preset colour is a `#rrggbb` string the colour parser accepts. */
  lemma PresetsAccepted()
    ensures forall i :: 0 <= i < |ColorPresets| ==>
              && |ColorPresets[i].backgroundColor| == 7 && ColorUtils.HexToRgb(ColorPresets[i].backgroundColor).Some?
              && |ColorPresets[i].textColor| == 7 && ColorUtils.HexToRgb(ColorPresets[i].textColor).Some?
  {
    forall i | 0 <= i < |ColorPresets|
      ensures ColorUtils.Accepted(ColorPresets[i].backgroundColor) && ColorUtils.Accepted(ColorPresets[i].textColor)
    {
      PresetAccepted(i);
    }
  }

  lemma PresetAccepted(i: nat)
    requires i < |ColorPresets|
    ensures |ColorPresets[i].backgroundColor| == 7 && ColorUtils.Accepted(ColorPresets[i].backgroundColor)
    ensures |ColorPresets[i].textColor| == 7 && ColorUtils.Accepted(ColorPresets[i].textColor)
  {
    BackgroundLower(i);
    TextLower(i);
    LowerHexColour(ColorPresets[i].backgroundColor);
    LowerHexColour(ColorPresets[i].textColor);
  }

  lemma BackgroundLower(i: nat)
    requires i < |ColorPresets|
    ensures LowerColour(ColorPresets[i].backgroundColor)
  {
  }

  lemma TextLower(i: nat)
    requires i < |ColorPresets|
    ensures LowerColour(ColorPresets[i].textColor)
  {
  }

  /** `#` and six digits or lower-case letters up to `f`. */
  predicate LowerColour(c: string) {
    |c| == 7 && c[0] == '#' && forall k :: 1 <= k < 7 ==> ('0' <= c[k] <= '9' || 'a' <= c[k] <= 'f')
  }

  lemma LowerHexColour(c: string)
    requires LowerColour(c)
    ensures |c| == 7 && ColorUtils.Accepted(c)
  {
    assert forall k :: 0 <= k < 6 ==> c[1..][k] == c[k + 1];
  }

  /** Font titles (the source's `label`) serve as selection keys: no two
      are equal. */
  lemma FontTitlesDistinct()
    ensures forall i, j :: 0 <= i < j < |FontFamilies| ==> FontFamilies[i].title != FontFamilies[j].title
  {
    var initials := "IGHMVSPC";
    assert forall i :: 0 <= i < |FontFamilies| ==> FontFamilies[i].title[0] == initials[i];
  }

  /** Preset names serve as selection keys too. */
  lemma PresetNamesDistinct()
    ensures forall i, j :: 0 <= i < j < |ColorPresets| ==> ColorPresets[i].name != ColorPresets[j].name
  {
    var names := "经护冷浅羊夜深暖高淡";
    assert forall i :: 0 <= i < |ColorPresets| ==> ColorPresets[i].name[0] == names[i];
  }
}
