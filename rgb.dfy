/** RGBA colour values and their tolerance comparison (src/image_analyzer/color/rgb.rs). */
module RgbColors {
  import opened Hsvs

  /** Rust's `u8`. */
  type u8 = x: int | 0 <= x < 256

  datatype Rgb = Rgb(r: u8, g: u8, b: u8, a: u8)

  /** The channels in memory order, the `[u8; 4]` the source converts from. */
  function Bytes(c: Rgb): (bytes: seq<u8>)
    ensures |bytes| == 4
  {
    [c.r, c.g, c.b, c.a]
  }

  /**
   * `|x - y|` computed in `i16` and cast back to `u8`. The difference of two bytes lies in
   * -255..255, so the cast never truncates.
   */
  function AbsDiff(x: u8, y: u8): (d: u8)
    ensures d == x - y || d == y - x
  {
    if x >= y then x - y else y - x
  }

  /** `Rgb::diff`: the channel-wise absolute difference. */
  function Diff(self: Rgb, other: Rgb): (d: Rgb)
    ensures d.r == self.r - other.r || d.r == other.r - self.r
    ensures d.g == self.g - other.g || d.g == other.g - self.g
    ensures d.b == self.b - other.b || d.b == other.b - self.b
    ensures d.a == self.a - other.a || d.a == other.a - self.a
  {
    Rgb(AbsDiff(self.r, other.r), AbsDiff(self.g, other.g), AbsDiff(self.b, other.b), AbsDiff(self.a, other.a))
  }

  lemma DiffSymmetric(x: Rgb, y: Rgb)
    ensures Diff(x, y) == Diff(y, x)
  {
  }

  lemma DiffZeroIffEqual(x: Rgb, y: Rgb)
    ensures Diff(x, y) == Rgb(0, 0, 0, 0) <==> x == y
  {
  }

  /** Each channel of `x` is within the matching tolerance channel of `y`, in both directions. */
  predicate Within(x: u8, y: u8, tolerance: u8) {
    x <= y + tolerance && y <= x + tolerance
  }

  /** `Rgb::compare`: every channel differs by at most the matching tolerance channel. */
  function Compare(self: Rgb, other: Rgb, tolerance: Rgb): (close: bool)
    ensures close <==> Within(self.r, other.r, tolerance.r) && Within(self.g, other.g, tolerance.g)
                       && Within(self.b, other.b, tolerance.b) && Within(self.a, other.a, tolerance.a)
  {
    var d := Diff(self, other);
    d.r <= tolerance.r && d.g <= tolerance.g && d.b <= tolerance.b && d.a <= tolerance.a
  }

  lemma CompareReflexive(x: Rgb, tolerance: Rgb)
    ensures Compare(x, x, tolerance)
  {
  }

  lemma CompareSymmetric(x: Rgb, y: Rgb, tolerance: Rgb)
    ensures Compare(x, y, tolerance) == Compare(y, x, tolerance)
  {
  }

  /** With no tolerance, comparison is equality. */
  lemma CompareExact(x: Rgb, y: Rgb)
    ensures Compare(x, y, Rgb(0, 0, 0, 0)) <==> x == y
  {
  }

  /** Raising the tolerance never turns a match into a mismatch. */
  lemma CompareMonotone(x: Rgb, y: Rgb, t: Rgb, u: Rgb)
    requires t.r <= u.r && t.g <= u.g && t.b <= u.b && t.a <= u.a
    requires Compare(x, y, t)
    ensures Compare(x, y, u)
  {
  }

  /**
   * The two conversions between RGB and HSV that `Rgb` and `Color` delegate to
   * (src/image_analyzer/color/color_from.rs forwards to a conversion module that is not
   * part of this model). They are parameters: nothing is assumed about them.
   */
  datatype Conversions = Conversions(toHsv: Rgb -> Hsv, toRgb: Hsv -> Rgb)

  /** `Rgb::compare_from_hsv`: the HSV value is first converted to RGB, then compared. */
  function CompareFromHsv(self: Rgb, other: Hsv, tolerance: Rgb, conv: Conversions): (close: bool)
    ensures close == Compare(self, conv.toRgb(other), tolerance)
  {
    var d := Diff(self, conv.toRgb(other));
    d.r <= tolerance.r && d.g <= tolerance.g && d.b <= tolerance.b && d.a <= tolerance.a
  }

  /** `From<[u8; 3]>`: red, green and blue as given, fully opaque. */
  function FromRgb(bytes: seq<u8>): (c: Rgb)
    requires |bytes| == 3
    ensures Bytes(c) == bytes + [255]
  {
    Rgb(bytes[0], bytes[1], bytes[2], 255)
  }

  /** `From<[u8; 4]>`: the four bytes in order. */
  function FromRgba(bytes: seq<u8>): (c: Rgb)
    requires |bytes| == 4
    ensures Bytes(c) == bytes
  {
    Rgb(bytes[0], bytes[1], bytes[2], bytes[3])
  }

  /** Reading a colour back from its bytes gives the colour again. */
  lemma FromRgbaRoundTrip(c: Rgb)
    ensures FromRgba(Bytes(c)) == c
  {
  }
}
