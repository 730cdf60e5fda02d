/** Unsigned pixel coordinates and the comparisons used by zones (src/data/point.rs). */
module Points {

  /** Rust's `u32`. */
  type u32 = x: int | 0 <= x < 0x1_0000_0000

  datatype Point = Point(x: u32, y: u32)

  /** `Point::new`: the coordinates are stored as given. */
  function New(x: u32, y: u32): (p: Point)
    ensures p.x == x && p.y == y
  {
    Point(x, y)
  }

  /** `is_after`: `p` reaches `q` on at least one axis, so it is not strictly before `q` on both. */
  function IsAfter(p: Point, q: Point): (after: bool)
    ensures after <==> !(p.x < q.x && p.y < q.y)
  {
    p.x >= q.x || p.y >= q.y
  }

  /** `is_before`: `p` does not exceed `q` on at least one axis; it is `is_after` with the points swapped. */
  function IsBefore(p: Point, q: Point): (before: bool)
    ensures before <==> !(p.x > q.x && p.y > q.y)
    ensures before == IsAfter(q, p)
  {
    p.x <= q.x || p.y <= q.y
  }

  /** `is_under`: `p` is on `q`'s row or below it, that is, not strictly above it. */
  function IsUnder(p: Point, q: Point): (under: bool)
    ensures under <==> !(p.y < q.y)
  {
    p.y >= q.y
  }

  /** `is_above`: `p` is on `q`'s row or above it; it is `is_under` with the points swapped. */
  function IsAbove(p: Point, q: Point): (above: bool)
    ensures above <==> !(p.y > q.y)
    ensures above == IsUnder(q, p)
  {
    p.y <= q.y
  }

  /** `is_inside`: neither after `max` nor before `min`, that is, strictly inside the open box. */
  function IsInside(p: Point, min: Point, max: Point): (inside: bool)
    ensures inside <==> min.x < p.x < max.x && min.y < p.y < max.y
  {
    !IsAfter(p, max) && !IsBefore(p, min)
  }

  /** Every pair of points is ordered one way or the other (often both). */
  lemma AfterOrBefore(p: Point, q: Point)
    ensures IsAfter(p, q) || IsBefore(p, q)
    ensures IsAfter(p, q) && IsBefore(p, q) <==> !(p.x < q.x && p.y < q.y) && !(p.x > q.x && p.y > q.y)
  {
  }

  /** Being under and above at once means sharing the row. */
  lemma UnderAndAbove(p: Point, q: Point)
    ensures IsUnder(p, q) && IsAbove(p, q) <==> p.y == q.y
    ensures IsUnder(p, q) || IsAbove(p, q)
  {
  }

  /** The box is open: its corners, and every point on its edges, are outside. */
  lemma EdgesNotInside(p: Point, min: Point, max: Point)
    requires p.x == min.x || p.x == max.x || p.y == min.y || p.y == max.y
    ensures !IsInside(p, min, max)
  {
  }

  /** A box less than two units wide or high (in particular one with swapped or equal corners) has no inside. */
  lemma ThinBoxIsEmpty(p: Point, min: Point, max: Point)
    requires max.x <= min.x + 1 || max.y <= min.y + 1
    ensures !IsInside(p, min, max)
  {
  }
}
