/** The two-variant colour value and its accessors (src/image_analyzer/color.rs). */
module Colors {
  import opened Hsvs
  import R = RgbColors

  datatype Color = Rgb(rgb: R.Rgb) | Hsv(hsv: Hsv)

  /** `Color::get_rgb`: the value itself for an RGB colour, its conversion for an HSV one. */
  function GetRgb(c: Color, conv: R.Conversions): (rgb: R.Rgb)
    ensures c.Rgb? ==> rgb == c.rgb
    ensures c.Hsv? ==> rgb == conv.toRgb(c.hsv)
  {
    match c
    case Rgb(rgb) => rgb
    case Hsv(hsv) => conv.toRgb(hsv)
  }

  /** `Color::get_hsv`: the conversion for an RGB colour, the value itself for an HSV one. */
  function GetHsv(c: Color, conv: R.Conversions): (hsv: Hsv)
    ensures c.Rgb? ==> hsv == conv.toHsv(c.rgb)
    ensures c.Hsv? ==> hsv == c.hsv
  {
    match c
    case Rgb(rgb) => conv.toHsv(rgb)
    case Hsv(hsv) => hsv
  }
}
