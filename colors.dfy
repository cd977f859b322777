/**
 * The colour-scheme catalogue of the enhanced renderer and its per-face
 * lighting and shadow tables.
 *
 * Colours in the catalogue are `#rrggbb` strings, as the renderer receives
 * them. Turning such a string into channel values is the plotting library's
 * job, so lighting works on an already-converted `Rgb` triple.
 */
module Colors {

  /** A named bundle of colours: one per face, then edges, pips and background. */
  datatype ColorScheme = ColorScheme(faceColors: seq<string>, edgeColor: string, dotColor: string, background: string)

  const DefaultSchemeName: string := "classic"

  const Classic := ColorScheme(
    ["#ffffff", "#fafafa", "#f7f7f7", "#f4f4f4", "#f1f1f1", "#eeeeee"],
    "#333333", "#1a1a1a", "#111111")
  const Modern := ColorScheme(
    ["#e8f5e9", "#c8e6c9", "#a5d6a7", "#81c784", "#66bb6a", "#4caf50"],
    "#1b5e20", "#1b5e20", "#081c08")
  const Warm := ColorScheme(
    ["#fff3e0", "#ffe0b2", "#ffcc80", "#ffb74d", "#ffa726", "#ff9800"],
    "#e65100", "#e65100", "#160c00")
  const Cool := ColorScheme(
    ["#e3f2fd", "#bbdefb", "#90caf9", "#64b5f6", "#42a5f5", "#2196f3"],
    "#0d47a1", "#0d47a1", "#050c14")

  /** The catalogue, by the name a caller passes. */
  const ColorSchemes: map<string, ColorScheme> :=
    map["classic" := Classic, "modern" := Modern, "warm" := Warm, "cool" := Cool]

  predicate IsHexDigit(ch: char)
  {
    '0' <= ch <= '9' || 'a' <= ch <= 'f'
  }

  /** `s` is a colour written `#rrggbb` in lower-case hexadecimal. */
  predicate IsHexColor(s: string)
  {
    |s| == 7 && s[0] == '#' &&
    IsHexDigit(s[1]) && IsHexDigit(s[2]) && IsHexDigit(s[3]) &&
    IsHexDigit(s[4]) && IsHexDigit(s[5]) && IsHexDigit(s[6])
  }

  /** A scheme the renderer can use: six face colours and every colour well formed. */
  predicate WellFormed(s: ColorScheme)
  {
    |s.faceColors| == 6 &&
    (forall k :: 0 <= k < 6 ==> IsHexColor(s.faceColors[k])) &&
    IsHexColor(s.edgeColor) && IsHexColor(s.dotColor) && IsHexColor(s.background)
  }

  /** The catalogue holds exactly the four schemes, all well formed. */
  lemma CatalogueWellFormed()
    ensures ColorSchemes.Keys == {"classic", "modern", "warm", "cool"}
    ensures forall name :: name in ColorSchemes ==> WellFormed(ColorSchemes[name])
  {
    assert WellFormed(Classic);
    assert WellFormed(Modern);
    assert WellFormed(Warm);
    assert WellFormed(Cool);
  }

  /**
   * The scheme the renderer uses for `name`: the catalogue entry when there
   * is one, and the classic scheme for any other name. Either way it is well
   * formed, so every face gets a colour.
   */
  function SelectScheme(name: string): (s: ColorScheme)
    ensures WellFormed(s)
    ensures name in ColorSchemes ==> s == ColorSchemes[name]
    ensures name !in ColorSchemes ==> s == ColorSchemes[DefaultSchemeName]
  {
    CatalogueWellFormed();
    if name in ColorSchemes then ColorSchemes[name] else ColorSchemes[DefaultSchemeName]
  }

  /**
   * Asking for an unknown name gives exactly what asking for "classic"
   * gives, and no other known name does: the four schemes are distinct.
   */
  lemma FallbackIsClassic(name: string)
    ensures SelectScheme(name) == SelectScheme(DefaultSchemeName) <==> name !in ColorSchemes || name == DefaultSchemeName
  {
    var classic := ColorSchemes[DefaultSchemeName];
    if name in ColorSchemes && name != DefaultSchemeName {
      assert name in {"modern", "warm", "cool"} by { CatalogueWellFormed(); }
      assert ColorSchemes[name].edgeColor != classic.edgeColor;
    }
  }

  /** A colour as channel intensities. */
  datatype Rgb = Rgb(r: real, g: real, b: real)

  predicate InUnitRange(c: Rgb)
  {
    0.0 <= c.r <= 1.0 && 0.0 <= c.g <= 1.0 && 0.0 <= c.b <= 1.0
  }

  /** Per-face brightness factors, in face order: front, back, left, right, bottom, top. */
  const LightingFactors: seq<real> := [1.0, 0.9, 0.95, 0.85, 0.92, 0.88]

  /** Per-face opacity of the black shadow layer drawn over each face. */
  const ShadowAlphas: seq<real> := [0.15, 0.2, 0.18, 0.22, 0.17, 0.25]

  /** The tables give each of the six faces a factor in (0, 1] and a shadow opacity in (0, 1). */
  lemma TablesInRange()
    ensures |LightingFactors| == 6 && |ShadowAlphas| == 6
    ensures forall i :: 0 <= i < 6 ==> 0.0 < LightingFactors[i] <= 1.0
    ensures forall i :: 0 <= i < 6 ==> 0.0 < ShadowAlphas[i] < 1.0
  {
  }

  /** One channel scaled by `factor`: a factor in 0..1 never brightens it or takes it below 0. */
  function ScaleChannel(x: real, factor: real): (y: real)
    ensures 0.0 <= x <= 1.0 && 0.0 <= factor <= 1.0 ==> 0.0 <= y <= x
    ensures factor == 1.0 ==> y == x
  {
    var y := x * factor;
    if 0.0 <= x && 0.0 <= factor <= 1.0 then
      ProductNonNegative(x, factor);
      ProductNonNegative(x, 1.0 - factor);
      assert x - y == x * (1.0 - factor);
      y
    else
      y
  }

  lemma ProductNonNegative(a: real, b: real)
    requires 0.0 <= a && 0.0 <= b
    ensures 0.0 <= a * b
  {
  }

  /** Every channel of `c` scaled by `factor`. */
  function AdjustColor(c: Rgb, factor: real): (d: Rgb)
    ensures 0.0 <= factor <= 1.0 && InUnitRange(c) ==>
      InUnitRange(d) && d.r <= c.r && d.g <= c.g && d.b <= c.b
    ensures factor == 1.0 ==> d == c
  {
    Rgb(ScaleChannel(c.r, factor), ScaleChannel(c.g, factor), ScaleChannel(c.b, factor))
  }

  /**
   * The lit colour of face `i` from its base colour: never brighter than the
   * base in any channel and still a valid colour; the front face is unchanged.
   */
  function ShadeFace(i: nat, base: Rgb): (d: Rgb)
    requires i < 6
    ensures InUnitRange(base) ==> InUnitRange(d) && d.r <= base.r && d.g <= base.g && d.b <= base.b
    ensures i == 0 ==> d == base
  {
    AdjustColor(base, LightingFactors[i])
  }
}
