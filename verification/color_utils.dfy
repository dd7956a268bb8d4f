/** Colour helpers of the reader theme: parsing and printing `#rrggbb`
    (the six-digit hex notation of CSS Color Module Level 4, section 5.2,
    with the `#` optional on input), and the derived theme palette.
    Channel arithmetic is exact (`real`) and the luminance test and the
    HSL conversion stay abstract. */
module ColorUtils {
  import opened Wrappers
  import Strings

  datatype Rgb = Rgb(r: int, g: int, b: int)

  /* ----- Parsing ----- */

  predicate IsHexDigit(c: char) {
    ('0' <= c <= '9') || ('a' <= c <= 'f') || ('A' <= c <= 'F')
  }

  function HexValue(c: char): (v: nat)
    requires IsHexDigit(c)
    ensures v < 16
  {
    if '0' <= c <= '9' then (c - '0') as nat
    else if 'a' <= c <= 'f' then (c - 'a') as nat + 10
    else (c - 'A') as nat + 10
  }

  predicate AllHex(s: string) {
    forall i :: 0 <= i < |s| ==> IsHexDigit(s[i])
  }

  /** The six digits of an accepted colour. */
  predicate Accepted(hex: string) {
    || (|hex| == 6 && AllHex(hex))
    || (|hex| == 7 && hex[0] == '#' && AllHex(hex[1..]))
  }

  function Digits(hex: string): (d: string)
    requires Accepted(hex)
    ensures |d| == 6 && AllHex(d)
  {
    if |hex| == 6 then hex else hex[1..]
  }

  /** `parseInt(pair, 16)` on two hex digits. */
  function PairValue(a: char, b: char): (v: int)
    requires IsHexDigit(a) && IsHexDigit(b)
    ensures 0 <= v <= 255
  {
    16 * HexValue(a) + HexValue(b)
  }

  /** `hexToRgb`: `/^#?([a-f\d]{2})([a-f\d]{2})([a-f\d]{2})$/i`. */
  function HexToRgb(hex: string): (r: Option<Rgb>)
    ensures r.Some? <==> Accepted(hex)
    ensures r.Some? ==> 0 <= r.value.r <= 255 && 0 <= r.value.g <= 255 && 0 <= r.value.b <= 255
  {
    if !Accepted(hex) then None
    else
      var d := Digits(hex);
      Some(Rgb(PairValue(d[0], d[1]), PairValue(d[2], d[3]), PairValue(d[4], d[5])))
  }

  /* ----- Printing ----- */

  /** `Math.round`: halves go up. */
  function Round(x: real): int {
    (x + 0.5).Floor
  }

  /** `Math.max(0, Math.min(255, v))`. */
  function Clamp(v: int): (c: int)
    ensures 0 <= c <= 255
    ensures 0 <= v <= 255 ==> c == v
  {
    if v < 0 then 0 else if v > 255 then 255 else v
  }

  function LowerHexDigit(d: nat): (c: char)
    requires d < 16
    ensures IsHexDigit(c) && HexValue(c) == d
    ensures !('A' <= c <= 'F')
  {
    "0123456789abcdef"[d]
  }

  /** `n.toString(16)` for a channel value: no leading zero. */
  function ToHex(n: nat): string
    requires n < 256
  {
    if n < 16 then [LowerHexDigit(n)] else [LowerHexDigit(n / 16), LowerHexDigit(n % 16)]
  }

  /** `hex.length === 1 ? "0" + hex : hex`. */
  function Pad(h: string): string {
    if |h| == 1 then "0" + h else h
  }

  /** Hex digits with no upper-case letter. */
  predicate LowerHexText(s: string) {
    forall i :: 0 <= i < |s| ==> IsHexDigit(s[i]) && !('A' <= s[i] <= 'F')
  }

  /** The two-digit form of a channel value, as padding yields it. */
  lemma PadTwoDigits(n: nat)
    requires n < 256
    ensures Pad(ToHex(n)) == [LowerHexDigit(n / 16), LowerHexDigit(n % 16)]
  {
    if n < 16 {
      assert n / 16 == 0 && n % 16 == n;
    }
  }

  /** A channel as two lower-case hex digits, rounded and clamped. */
  function Channel(x: real): (s: string)
    ensures |s| == 2 && LowerHexText(s)
    ensures s[0] == LowerHexDigit(Clamp(Round(x)) / 16) && s[1] == LowerHexDigit(Clamp(Round(x)) % 16)
  {
    var n := Clamp(Round(x));
    PadTwoDigits(n);
    Pad(ToHex(n))
  }

  /** `rgbToHex`. */
  function RgbToHex(r: real, g: real, b: real): (s: string)
    ensures |s| == 7 && s[0] == '#' && LowerHexText(s[1..])
  {
    var d := Channel(r) + Channel(g) + Channel(b);
    LowerHexConcat(Channel(r), Channel(g));
    LowerHexConcat(Channel(r) + Channel(g), Channel(b));
    assert ("#" + d)[1..] == d;
    Hash(Channel(r), Channel(g), Channel(b))
  }

  /** `#` followed by the three channels. */
  function Hash(r: string, g: string, b: string): string {
    "#" + (r + g + b)
  }

  lemma HashDigits(a: char, b: char, c: char, d: char, e: char, f: char)
    ensures Hash([a, b], [c, d], [e, f]) == ['#', a, b, c, d, e, f]
  {
  }

  lemma LowerHexConcat(a: string, b: string)
    requires LowerHexText(a) && LowerHexText(b)
    ensures LowerHexText(a + b)
  {
    forall i | 0 <= i < |a + b| ensures IsHexDigit((a + b)[i]) && !('A' <= (a + b)[i] <= 'F') {
      if i >= |a| {
        assert (a + b)[i] == b[i - |a|];
      }
    }
  }

  lemma LowerIsHex(s: string)
    requires LowerHexText(s)
    ensures AllHex(s)
  {
  }

  /** Printing a colour and parsing it back gives the same channels. */
  lemma ParsePrinted(c: Rgb)
    requires 0 <= c.r <= 255 && 0 <= c.g <= 255 && 0 <= c.b <= 255
    ensures HexToRgb(RgbToHex(c.r as real, c.g as real, c.b as real)) == Some(c)
  {
    var s := RgbToHex(c.r as real, c.g as real, c.b as real);
    LowerIsHex(s[1..]);
    RoundInt(c.r);
    RoundInt(c.g);
    RoundInt(c.b);
    assert Digits(s) == s[1..];
    ChannelValue(c.r, s[1], s[2]);
    ChannelValue(c.g, s[3], s[4]);
    ChannelValue(c.b, s[5], s[6]);
  }

  lemma RoundInt(n: int)
    ensures Round(n as real) == n
  {
  }

  lemma ChannelValue(n: int, a: char, b: char)
    requires 0 <= n <= 255
    requires a == LowerHexDigit(n / 16) && b == LowerHexDigit(n % 16)
    ensures PairValue(a, b) == n
  {
  }

  function LowerHex(c: char): char {
    if 'A' <= c <= 'F' then (c - 'A' + 'a') as char else c
  }

  /** Parsing an accepted colour and printing it gives its six digits in
      lower case, with a `#`. */
  lemma PrintParsed(hex: string)
    requires Accepted(hex)
    ensures var c := HexToRgb(hex).value;
            var d := Digits(hex);
            RgbToHex(c.r as real, c.g as real, c.b as real)
              == ['#', LowerHex(d[0]), LowerHex(d[1]), LowerHex(d[2]), LowerHex(d[3]), LowerHex(d[4]), LowerHex(d[5])]
  {
    var c := HexToRgb(hex).value;
    var d := Digits(hex);
    ChannelDigits(d[0], d[1]);
    ChannelDigits(d[2], d[3]);
    ChannelDigits(d[4], d[5]);
    assert RgbToHex(c.r as real, c.g as real, c.b as real)
           == Hash(Channel(c.r as real), Channel(c.g as real), Channel(c.b as real));
    HashDigits(LowerHex(d[0]), LowerHex(d[1]), LowerHex(d[2]), LowerHex(d[3]), LowerHex(d[4]), LowerHex(d[5]));
  }

  /** One channel parsed from two digits prints as those digits in lower case. */
  lemma ChannelDigits(a: char, b: char)
    requires IsHexDigit(a) && IsHexDigit(b)
    ensures Channel(PairValue(a, b) as real) == [LowerHex(a), LowerHex(b)]
  {
    RoundInt(PairValue(a, b));
    DigitsBack(a, b);
  }

  lemma DigitsBack(a: char, b: char)
    requires IsHexDigit(a) && IsHexDigit(b)
    ensures LowerHexDigit(PairValue(a, b) / 16) == LowerHex(a)
    ensures LowerHexDigit(PairValue(a, b) % 16) == LowerHex(b)
  {
    var x, y := HexValue(a), HexValue(b);
    assert PairValue(a, b) / 16 == x && PairValue(a, b) % 16 == y by {
      assert PairValue(a, b) == 16 * x + y;
      DivMod16(x, y);
    }
    DigitBack(a);
    DigitBack(b);
  }

  lemma DivMod16(x: nat, y: nat)
    requires x < 16 && y < 16
    ensures (16 * x + y) / 16 == x && (16 * x + y) % 16 == y
  {
  }

  lemma DigitBack(a: char)
    requires IsHexDigit(a)
    ensures LowerHexDigit(HexValue(a)) == LowerHex(a)
  {
  }

  /* ----- Derived colours ----- */

  /** Whether a parsed colour counts as dark (relative luminance below one
      half); the floating-point luminance itself is not modelled. */
  type DarkTest = Rgb -> bool

  /** `isDark`: an unparsable colour is never dark. */
  function IsDark(dark: DarkTest, hex: string): (r: bool)
    ensures !Accepted(hex) ==> !r
    ensures Accepted(hex) ==> r == dark(HexToRgb(hex).value)
  {
    var c := HexToRgb(hex);
    c.Some? && dark(c.value)
  }

  /** `Math.max(0, Math.min(255, v))` on reals. */
  function ClampReal(v: real): (c: real)
    ensures 0.0 <= c <= 255.0
  {
    if v < 0.0 then 0.0 else if v > 255.0 then 255.0 else v
  }

  /** `adjustBrightness`: every channel scaled by `1 + amount / 100`. */
  function AdjustBrightness(hex: string, amount: real): (r: string)
    ensures !Accepted(hex) ==> r == hex
    ensures Accepted(hex) ==> |r| == 7 && r[0] == '#' && LowerHexText(r[1..])
  {
    match HexToRgb(hex)
    case None => hex
    case Some(c) =>
      var factor := 1.0 + amount / 100.0;
      RgbToHex(ClampReal(c.r as real * factor), ClampReal(c.g as real * factor), ClampReal(c.b as real * factor))
  }

  /** Scaling by zero percent prints the colour back in lower case. */
  lemma AdjustByNothing(hex: string)
    requires Accepted(hex)
    ensures var c := HexToRgb(hex).value;
            AdjustBrightness(hex, 0.0) == RgbToHex(c.r as real, c.g as real, c.b as real)
  {
  }

  /** How `addAlpha` prints the clamped alpha: JavaScript number formatting
      is not modelled. */
  type NumberText = real -> string

  /** `addAlpha`: `rgba(r, g, b, a)` with the alpha clamped to [0, 1]. */
  function AddAlpha(hex: string, alpha: real, show: NumberText): (r: string)
    ensures !Accepted(hex) ==> r == hex
    ensures Accepted(hex) ==>
              var c := HexToRgb(hex).value;
              r == "rgba(" + Strings.NatToString(c.r) + ", " + Strings.NatToString(c.g) + ", "
                   + Strings.NatToString(c.b) + ", "
                   + show(if alpha < 0.0 then 0.0 else if alpha > 1.0 then 1.0 else alpha) + ")"
  {
    match HexToRgb(hex)
    case None => hex
    case Some(c) =>
      var a := if alpha < 0.0 then 0.0 else if alpha > 1.0 then 1.0 else alpha;
      "rgba(" + Strings.NatToString(c.r) + ", " + Strings.NatToString(c.g) + ", " + Strings.NatToString(c.b) + ", "
        + show(a) + ")"
  }

  /** The HSL round trip of `adjustLightness`, abstract: the channels (on
      the 0-255 scale, before rounding) of a colour with its lightness set
      to the clamped value. */
  type Relight = (Rgb, real) -> (real, real, real)

  /** `adjustLightness`. */
  function AdjustLightness(hex: string, lightness: real, relight: Relight): (r: string)
    ensures !Accepted(hex) ==> r == hex
    ensures Accepted(hex) ==> |r| == 7 && r[0] == '#' && LowerHexText(r[1..])
  {
    match HexToRgb(hex)
    case None => hex
    case Some(c) =>
      var l := if lightness < 0.0 then 0.0 else if lightness > 1.0 then 1.0 else lightness;
      var (r, g, b) := relight(c, l);
      RgbToHex(r, g, b)
  }

  /* ----- The theme palette ----- */

  datatype Theme = Theme(
    background: string,
    surface: string,
    surfaceTransparent: string,
    hover: string,
    input: string,
    border: string,
    borderSubtle: string,
    textPrimary: string,
    textSecondary: string,
    textMuted: string,
    accent: string,
    accentHover: string,
    shadow: string,
    focusRing: string)

  const DarkTextAccent := ("#60A5FA", "#93C5FD")
  const LightTextAccent := ("#2563EB", "#1D4ED8")

  /** `generateThemeColors`. */
  function ThemeColors(background: string, text: string, dark: DarkTest, show: NumberText): (t: Theme)
    // The inputs pass through, and the accent pair depends on the text
    // colour alone.
    ensures t.background == background && t.textPrimary == text
    ensures (t.accent, t.accentHover) == (if IsDark(dark, text) then DarkTextAccent else LightTextAccent)
    ensures !IsDark(dark, background) ==> t.input == "#ffffff"
    ensures IsDark(dark, background) ==> t.input == AdjustBrightness(background, 3.0)
    // The surface is lightened on a dark background and darkened on a
    // light one.
    ensures t.surface == AdjustBrightness(background, if IsDark(dark, background) then 5.0 else -5.0)
    ensures t.focusRing == AddAlpha(t.accent, 0.6, show)
    ensures t.border == AddAlpha(text, 0.15, show) && t.borderSubtle == AddAlpha(text, 0.08, show)
  {
    var bgIsDark := IsDark(dark, background);
    var textIsDark := IsDark(dark, text);
    var surface := AdjustBrightness(background, if bgIsDark then 5.0 else -5.0);
    var (accent, accentHover) := if textIsDark then DarkTextAccent else LightTextAccent;
    Theme(
      background,
      surface,
      AddAlpha(surface, 0.9, show),
      AddAlpha(text, if bgIsDark then 0.08 else 0.05, show),
      if bgIsDark then AdjustBrightness(background, 3.0) else "#ffffff",
      AddAlpha(text, 0.15, show),
      AddAlpha(text, 0.08, show),
      text,
      AddAlpha(text, 0.7, show),
      AddAlpha(text, 0.5, show),
      accent,
      accentHover,
      AddAlpha(text, 0.1, show),
      AddAlpha(accent, 0.6, show))
  }

  /** The accent colours are well-formed, so the focus ring is always an
      `rgba(...)` colour. */
  lemma AccentsAccepted()
    ensures Accepted(DarkTextAccent.0) && Accepted(DarkTextAccent.1)
    ensures Accepted(LightTextAccent.0) && Accepted(LightTextAccent.1)
  {
    assert DarkTextAccent.0[1..] == "60A5FA";
    assert DarkTextAccent.1[1..] == "93C5FD";
    assert LightTextAccent.0[1..] == "2563EB";
    assert LightTextAccent.1[1..] == "1D4ED8";
  }

  /** `generateAllThemeColors`: one palette per preset, in order. */
  function AllThemeColors(presets: seq<(string, string)>, dark: DarkTest, show: NumberText): (r: seq<Theme>)
    ensures |r| == |presets|
    ensures forall i :: 0 <= i < |r| ==> r[i].background == presets[i].0 && r[i].textPrimary == presets[i].1
  {
    seq(|presets|, i requires 0 <= i < |presets| => ThemeColors(presets[i].0, presets[i].1, dark, show))
  }
}
