/**
 * Rectangular regions of interest and the manager that deduplicates and merges them
 * (src/data/better_call_zone.rs).
 */
module Zones {
  import opened Points

  /** The fixed canvas that `includes` and `extend` clamp to, whatever the manager's size. */
  const CanvasWidth: u32 := 800
  const CanvasHeight: u32 := 600

  function Min(a: u32, b: u32): u32 { if a <= b then a else b }
  function Max(a: u32, b: u32): u32 { if a >= b then a else b }

  /**
   * The square of the Euclidean distance between two points. It stands for the `f64`
   * `size` field: the square root is injective on non-negative numbers, so comparing
   * squared distances decides the same equalities.
   */
  function SquaredDistance(a: Point, b: Point): nat {
    (a.x - b.x) * (a.x - b.x) + (a.y - b.y) * (a.y - b.y)
  }

  /**
   * A zone: two corners as given (not normalised) and the size computed when it was built.
   * The derived equality of the source compares all three fields.
   */
  datatype Zone = Zone(start: Point, end: Point, size: nat)

  /** The normalised, canvas-clamped box `(min_x, min_y, max_x, max_y)`. */
  datatype Bounds = Bounds(minX: u32, minY: u32, maxX: u32, maxY: u32)

  /** `Zone::new`: the corners are kept verbatim; the size is their distance. */
  function New(start: Point, end: Point): (z: Zone)
    ensures z.start == start && z.end == end
    ensures z.size == SquaredDistance(end, start)
  {
    Zone(start, end, SquaredDistance(start, end))
  }

  /**
   * `Zone::area`: the lower bounds are the smaller corner coordinates, the upper bounds
   * the larger ones clamped to the canvas. The lower bounds are not clamped.
   */
  function Area(z: Zone, maxX: u32, maxY: u32): (b: Bounds)
    ensures b.minX <= z.start.x && b.minX <= z.end.x && (b.minX == z.start.x || b.minX == z.end.x)
    ensures b.minY <= z.start.y && b.minY <= z.end.y && (b.minY == z.start.y || b.minY == z.end.y)
    ensures b.maxX <= maxX && (b.maxX == maxX || (b.maxX >= z.start.x && b.maxX >= z.end.x))
    ensures b.maxX == maxX || b.maxX == z.start.x || b.maxX == z.end.x
    ensures b.maxX < maxX ==> b.maxX == z.start.x || b.maxX == z.end.x
    ensures b.maxY <= maxY && (b.maxY == maxY || (b.maxY >= z.start.y && b.maxY >= z.end.y))
    ensures b.maxY == maxY || b.maxY == z.start.y || b.maxY == z.end.y
    ensures b.maxX <= Max(z.start.x, z.end.x) && b.maxY <= Max(z.start.y, z.end.y)
  {
    Bounds(Min(z.start.x, z.end.x), Min(z.start.y, z.end.y),
           Min(Max(z.start.x, z.end.x), maxX), Min(Max(z.start.y, z.end.y), maxY))
  }

  /** Swapping the corners does not change the box. */
  lemma AreaIgnoresCornerOrder(z: Zone, maxX: u32, maxY: u32)
    ensures Area(Zone(z.end, z.start, z.size), maxX, maxY) == Area(z, maxX, maxY)
  {
  }

  /**
   * Only the upper bounds are clamped: the box is well ordered on an axis exactly when
   * the smaller corner coordinate lies on the canvas.
   */
  lemma AreaOrderedIffOnCanvas(z: Zone, maxX: u32, maxY: u32)
    ensures var b := Area(z, maxX, maxY);
      (b.minX <= b.maxX <==> Min(z.start.x, z.end.x) <= maxX)
      && (b.minY <= b.maxY <==> Min(z.start.y, z.end.y) <= maxY)
  {
  }

  /** A zone whose corners lie off the canvas yields an inverted box. */
  lemma AreaCanBeInverted()
    ensures var b := Area(New(Point(900, 0), Point(950, 10)), 800, 600);
      b.minX == 900 && b.maxX == 800 && b.minX > b.maxX
  {
  }

  /** The box of `inner` lies within the box of `outer`. */
  predicate BoundsWithin(inner: Bounds, outer: Bounds) {
    inner.minX >= outer.minX && inner.minY >= outer.minY
    && inner.maxX <= outer.maxX && inner.maxY <= outer.maxY
  }

  /**
   * `Zone::includes`: the 800x600-clamped box of `other` lies within that of `self`, that
   * is, `other`'s smaller corner coordinates are at least `self`'s and its larger ones,
   * clamped to the canvas, at most `self`'s.
   */
  function Includes(self: Zone, other: Zone): (inc: bool)
    ensures inc <==>
      Min(self.start.x, self.end.x) <= Min(other.start.x, other.end.x)
      && Min(self.start.y, self.end.y) <= Min(other.start.y, other.end.y)
      && Min(Max(other.start.x, other.end.x), CanvasWidth) <= Min(Max(self.start.x, self.end.x), CanvasWidth)
      && Min(Max(other.start.y, other.end.y), CanvasHeight) <= Min(Max(self.start.y, self.end.y), CanvasHeight)
  {
    BoundsWithin(Area(other, CanvasWidth, CanvasHeight), Area(self, CanvasWidth, CanvasHeight))
  }

  lemma IncludesReflexive(z: Zone)
    ensures Includes(z, z)
  {
  }

  lemma IncludesTransitive(a: Zone, b: Zone, c: Zone)
    requires Includes(a, b) && Includes(b, c)
    ensures Includes(a, c)
  {
  }

  /** The cases of `test_zone_includes` and `test_zone_area`. */
  lemma IncludesExamples()
    ensures Area(New(Point(0, 0), Point(10, 10)), 800, 600) == Bounds(0, 0, 10, 10)
    ensures Includes(New(Point(0, 0), Point(10, 10)), New(Point(0, 0), Point(10, 10)))
    ensures Includes(New(Point(0, 0), Point(10, 10)), New(Point(0, 0), Point(5, 5)))
    ensures !Includes(New(Point(0, 0), Point(5, 5)), New(Point(0, 0), Point(10, 10)))
  {
  }

  /** `Zone::is_inside`: the point lies strictly inside the box spanned by `start` and `end`, as given. */
  function IsInside(z: Zone, p: Point): (inside: bool)
    ensures inside <==> z.start.x < p.x < z.end.x && z.start.y < p.y < z.end.y
  {
    Points.IsInside(p, z.start, z.end)
  }

  /** The case of `test_zone_is_inside`, and the corners that the open box leaves out. */
  lemma IsInsideExamples()
    ensures IsInside(New(Point(0, 0), Point(10, 10)), Point(5, 5))
    ensures !IsInside(New(Point(0, 0), Point(10, 10)), Point(0, 0))
    ensures !IsInside(New(Point(0, 0), Point(10, 10)), Point(10, 10))
    ensures !IsInside(New(Point(10, 10), Point(0, 0)), Point(5, 5))
  {
  }

  /** What `extend` leaves in `self`, and whether it answered `Some`. */
  datatype Extension = Extension(zone: Zone, merged: bool)

  /**
   * The merge heuristic of `Zone::extend`, stated declaratively: the four shared-corner
   * cases in their fixed order, each moving the opposite corner of `self` outward, then
   * plain containment, which changes nothing.
   */
  function Extended(self: Zone, other: Zone): Extension {
    if self.start == other.start then
      Extension(self.(end := Point(Max(self.end.x, other.end.x), Max(self.end.y, other.end.y))), true)
    else if self.end == other.end then
      Extension(self.(start := Point(Min(self.start.x, other.start.x), Min(self.start.y, other.start.y))), true)
    else if self.start == other.end then
      Extension(self.(end := Point(Max(self.end.x, other.start.x), Max(self.end.y, other.start.y))), true)
    else if self.end == other.start then
      Extension(self.(start := Point(Min(self.start.x, other.end.x), Min(self.start.y, other.end.y))), true)
    else
      Extension(self, Includes(self, other))
  }

  /**
   * `Zone::extend`: updates the corners of `self` field by field, as the source does in
   * place; `merged` is whether it returned `Some`. The argument is never changed.
   */
  method Extend(self: Zone, other: Zone) returns (updated: Zone, merged: bool)
    ensures Extension(updated, merged) == Extended(self, other)
  {
    updated := self;
    if updated.start == other.start {
      if updated.end.x < other.end.x {
        updated := updated.(end := updated.end.(x := other.end.x));
      }
      if updated.end.y < other.end.y {
        updated := updated.(end := updated.end.(y := other.end.y));
      }
      return updated, true;
    } else if updated.end == other.end {
      if updated.start.x > other.start.x {
        updated := updated.(start := updated.start.(x := other.start.x));
      }
      if updated.start.y > other.start.y {
        updated := updated.(start := updated.start.(y := other.start.y));
      }
      return updated, true;
    } else if updated.start == other.end {
      if updated.end.x < other.start.x {
        updated := updated.(end := updated.end.(x := other.start.x));
      }
      if updated.end.y < other.start.y {
        updated := updated.(end := updated.end.(y := other.start.y));
      }
      return updated, true;
    } else if updated.end == other.start {
      if updated.start.x > other.end.x {
        updated := updated.(start := updated.start.(x := other.end.x));
      }
      if updated.start.y > other.end.y {
        updated := updated.(start := updated.start.(y := other.end.y));
      }
      return updated, true;
    }
    var theirs := Area(other, CanvasWidth, CanvasHeight);
    var mine := Area(updated, CanvasWidth, CanvasHeight);
    merged := theirs.minX >= mine.minX && theirs.minY >= mine.minY
      && theirs.maxX <= mine.maxX && theirs.maxY <= mine.maxY;
  }

  /** Some corner of one zone is a corner of the other, in one of the four pairings tried. */
  predicate SharesCorner(self: Zone, other: Zone) {
    self.start == other.start || self.end == other.end
    || self.start == other.end || self.end == other.start
  }

  /**
   * `extend` answers `None` exactly when no corner is shared and the argument's clamped
   * box is not contained in `self`'s; `self` is then unchanged. The size is never
   * recomputed, in any branch.
   */
  lemma ExtendNoneIff(self: Zone, other: Zone)
    ensures !Extended(self, other).merged <==> !SharesCorner(self, other) && !Includes(self, other)
    ensures !Extended(self, other).merged ==> Extended(self, other).zone == self
    ensures Extended(self, other).zone.size == self.size
  {
  }

  /** With a shared start, the start is kept and the end becomes the componentwise maximum of both ends. */
  lemma ExtendSharedStart(self: Zone, other: Zone)
    requires self.start == other.start
    ensures var e := Extended(self, other);
      e.merged && e.zone.start == self.start && e.zone.size == self.size
      && e.zone.end.x >= self.end.x && e.zone.end.x >= other.end.x
      && (e.zone.end.x == self.end.x || e.zone.end.x == other.end.x)
      && e.zone.end.y >= self.end.y && e.zone.end.y >= other.end.y
      && (e.zone.end.y == self.end.y || e.zone.end.y == other.end.y)
  {
  }

  /** With a shared end (and different starts), the end is kept and the start becomes the componentwise minimum. */
  lemma ExtendSharedEnd(self: Zone, other: Zone)
    requires self.start != other.start && self.end == other.end
    ensures var e := Extended(self, other);
      e.merged && e.zone.end == self.end && e.zone.size == self.size
      && e.zone.start.x <= self.start.x && e.zone.start.x <= other.start.x
      && (e.zone.start.x == self.start.x || e.zone.start.x == other.start.x)
      && e.zone.start.y <= self.start.y && e.zone.start.y <= other.start.y
      && (e.zone.start.y == self.start.y || e.zone.start.y == other.start.y)
  {
  }

  /** The corners of a zone are in normal order: `start` is the top-left, `end` the bottom-right. */
  predicate Normalised(z: Zone) {
    z.start.x <= z.end.x && z.start.y <= z.end.y
  }

  /**
   * For normalised zones sharing their start, the merged zone covers both zones on the
   * 800x600 canvas.
   */
  lemma ExtendSharedStartCovers(self: Zone, other: Zone)
    requires Normalised(self) && Normalised(other) && self.start == other.start
    ensures Includes(Extended(self, other).zone, self) && Includes(Extended(self, other).zone, other)
  {
  }

  /**
   * The corner cases answer `Some` even when nothing changes and the result does not cover
   * the argument: `(0,0)-(5,5)` extended by `(5,5)-(25,25)` stays `(0,0)-(5,5)`.
   */
  lemma ExtendSomeWithoutCovering()
    ensures var self, other := New(Point(0, 0), Point(5, 5)), New(Point(5, 5), Point(25, 25));
      Extended(self, other) == Extension(self, true) && !Includes(self, other)
  {
  }

  /** The cases of `test_zone_extend`. */
  lemma ExtendExamples()
    ensures var z := New(Point(0, 0), Point(10, 10));
      Extended(z, z) == Extension(z, true)
      && Extended(z, New(Point(0, 0), Point(5, 5))) == Extension(z, true)
  {
  }

  /** No two entries are equal. */
  ghost predicate Unique(zones: seq<Zone>) {
    forall i, j :: 0 <= i < j < |zones| ==> zones[i] != zones[j]
  }

  /**
   * One zone of the merge pass: the first accepted zone that `extend` merges it into is
   * replaced by the extended zone; if none does, the zone is accepted at the end.
   */
  function Absorb(accepted: seq<Zone>, zone: Zone): (r: seq<Zone>)
    ensures |accepted| <= |r| <= |accepted| + 1
    ensures |r| == |accepted| + 1 <==> forall k :: 0 <= k < |accepted| ==> !Extended(accepted[k], zone).merged
  {
    if accepted == [] then [zone]
    else if Extended(accepted[0], zone).merged then [Extended(accepted[0], zone).zone] + accepted[1..]
    else [accepted[0]] + Absorb(accepted[1..], zone)
  }

  /** The pending zones absorbed, left to right, into the accepted ones. */
  function MergeInto(accepted: seq<Zone>, pending: seq<Zone>): (r: seq<Zone>)
    ensures |accepted| <= |r| <= |accepted| + |pending|
    ensures accepted == [] && pending != [] ==> |r| >= 1
    decreases pending
  {
    if pending == [] then accepted else MergeInto(Absorb(accepted, pending[0]), pending[1..])
  }

  /** The single, order-dependent pass of `extend_zones`. */
  function MergePass(zones: seq<Zone>): seq<Zone> {
    MergeInto([], zones)
  }

  /** The zone is merged into the first accepted zone that takes it, and nothing else changes. */
  lemma {:induction false} AbsorbFirst(accepted: seq<Zone>, zone: Zone, j: nat)
    requires j < |accepted| && Extended(accepted[j], zone).merged
    requires forall k :: 0 <= k < j ==> !Extended(accepted[k], zone).merged
    ensures Absorb(accepted, zone) == accepted[j := Extended(accepted[j], zone).zone]
  {
    if j > 0 {
      AbsorbFirst(accepted[1..], zone, j - 1);
    }
  }

  /** A zone that no accepted zone takes is appended. */
  lemma {:induction false} AbsorbNone(accepted: seq<Zone>, zone: Zone)
    requires forall k :: 0 <= k < |accepted| ==> !Extended(accepted[k], zone).merged
    ensures Absorb(accepted, zone) == accepted + [zone]
  {
    if accepted != [] {
      AbsorbNone(accepted[1..], zone);
    }
  }

  /** The two ways the inner loop of `extend_zones` can end, each as one step of the pass. */
  lemma AbsorbStep(accepted: seq<Zone>, zone: Zone, found: bool, j: nat, zones: seq<Zone>)
    requires found ==> (j < |accepted| && Extended(accepted[j], zone).merged
                        && zones == accepted[j := Extended(accepted[j], zone).zone])
    requires !found ==> (j == |accepted| && zones == accepted + [zone])
    requires forall k :: 0 <= k < j ==> !Extended(accepted[k], zone).merged
    ensures zones == Absorb(accepted, zone)
  {
    if found {
      AbsorbFirst(accepted, zone, j);
    } else {
      AbsorbNone(accepted, zone);
    }
  }

  /** The merge pass never increases the count, and keeps at least one zone of a non-empty list. */
  lemma MergePassBounds(zones: seq<Zone>)
    ensures |MergePass(zones)| <= |zones|
    ensures zones != [] ==> 1 <= |MergePass(zones)|
  {
  }

  /** `test_zone_manager_extend`, first round: `(0,0)-(5,5)` is absorbed by `(0,0)-(10,10)`. */
  lemma MergePassExample()
    ensures var big, small := New(Point(0, 0), Point(10, 10)), New(Point(0, 0), Point(5, 5));
      MergePass([big, small]) == [big]
  {
    var big, small := New(Point(0, 0), Point(10, 10)), New(Point(0, 0), Point(5, 5));
    assert Absorb([big], small) == [big];
    calc {
      MergePass([big, small]);
      MergeInto([big], [big, small][1..]);
      { assert [big, small][1..] == [small]; }
      MergeInto([big], [small]);
      MergeInto([big], []);
    }
  }

  /**
   * The pass is order-dependent: `[(0,0)-(5,5), (5,5)-(25,25), (0,0)-(20,20)]` collapses
   * to one zone, the reverse order leaves two.
   */
  lemma MergePassOrderDependent()
    ensures var a, b, c := New(Point(0, 0), Point(5, 5)), New(Point(5, 5), Point(25, 25)), New(Point(0, 0), Point(20, 20));
      |MergePass([a, b, c])| == 1 && |MergePass([c, b, a])| == 2
  {
    var a, b, c := New(Point(0, 0), Point(5, 5)), New(Point(5, 5), Point(25, 25)), New(Point(0, 0), Point(20, 20));
    assert Absorb([a], b) == [a];
    assert Absorb([a], c) == [a.(end := Point(20, 20))];
    assert [a, b, c][1..] == [b, c] && [b, c][1..] == [c];
    assert MergeInto([a], [b, c]) == MergeInto([a], [c]);
    assert MergePass([a, b, c]) == [a.(end := Point(20, 20))];
    assert Absorb([c], b) == [c, b];
    assert Absorb([c, b], a) == [c, b];
    assert [c, b, a][1..] == [b, a] && [b, a][1..] == [a];
    assert MergeInto([c], [b, a]) == MergeInto([c, b], [a]);
    assert MergePass([c, b, a]) == [c, b];
  }

  /**
   * `test_zone_manager_extend`, second round: after the first round the manager holds
   * `(0,0)-(10,10)`, then `(0,0)-(5,5)`, `(0,0)-(15,15)`, `(0,0)-(20,20)` and
   * `(5,5)-(25,25)` are added. The pass grows the first zone to `(0,0)-(20,20)` but
   * `(5,5)-(25,25)` shares no corner with it and is not contained in it, so two zones remain.
   */
  lemma MergePassSecondRound()
    ensures var z0, z3, z5 := New(Point(0, 0), Point(10, 10)), New(Point(0, 0), Point(5, 5)), New(Point(0, 0), Point(15, 15));
      var z6, z7 := New(Point(0, 0), Point(20, 20)), New(Point(5, 5), Point(25, 25));
      MergePass([z0, z3, z5, z6, z7]) == [z0.(end := Point(20, 20)), z7]
  {
    var z0, z3, z5 := New(Point(0, 0), Point(10, 10)), New(Point(0, 0), Point(5, 5)), New(Point(0, 0), Point(15, 15));
    var z6, z7 := New(Point(0, 0), Point(20, 20)), New(Point(5, 5), Point(25, 25));
    assert Absorb([z0], z3) == [z0];
    assert Absorb([z0], z5) == [z0.(end := Point(15, 15))];
    assert Absorb([z0.(end := Point(15, 15))], z6) == [z0.(end := Point(20, 20))];
    assert Absorb([z0.(end := Point(20, 20))], z7) == [z0.(end := Point(20, 20)), z7];
    var all := [z0, z3, z5, z6, z7];
    assert all[1..] == [z3, z5, z6, z7] && all[1..][1..] == [z5, z6, z7];
    assert all[1..][1..][1..] == [z6, z7] && all[1..][1..][1..][1..] == [z7];
    calc {
      MergePass(all);
      MergeInto([z0], [z3, z5, z6, z7]);
      MergeInto([z0], [z5, z6, z7]);
      MergeInto([z0.(end := Point(15, 15))], [z6, z7]);
      MergeInto([z0.(end := Point(20, 20))], [z7]);
      MergeInto([z0.(end := Point(20, 20)), z7], []);
    }
  }

  /**
   * `extend_zones` can leave two equal zones, although `add_zone` never adds one. Four
   * distinct zones: `b` shares no corner with `a` and stays apart; `d` shares `a`'s end and
   * pulls its start to `(5,0)`; `c` then shares that start and pushes its end to
   * `(15,10)`. The grown zone keeps its construction size, which is also `b`'s.
   */
  lemma MergePassCanDuplicate()
    ensures var a, b := New(Point(10, 0), Point(0, 10)), New(Point(5, 0), Point(15, 10));
      var d, c := New(Point(5, 0), Point(0, 10)), New(Point(5, 0), Point(15, 5));
      Unique([a, b, d, c]) && MergePass([a, b, d, c]) == [b, b] && !Unique(MergePass([a, b, d, c]))
  {
    var a, b := New(Point(10, 0), Point(0, 10)), New(Point(5, 0), Point(15, 10));
    var d, c := New(Point(5, 0), Point(0, 10)), New(Point(5, 0), Point(15, 5));
    assert a.size == 200 && b.size == 200 && d.size == 125 && c.size == 125;
    var a1 := a.(start := Point(5, 0));
    assert Absorb([a], b) == [a, b];
    assert Absorb([a, b], d) == [a1, b];
    assert Absorb([a1, b], c) == [b, b];
    var all := [a, b, d, c];
    assert all[1..] == [b, d, c] && all[1..][1..] == [d, c] && all[1..][1..][1..] == [c];
    assert MergePass(all) == MergeInto([a], [b, d, c]);
    assert MergeInto([a], [b, d, c]) == MergeInto([a, b], [d, c]);
    assert MergeInto([a, b], [d, c]) == MergeInto([a1, b], [c]);
    assert MergeInto([a1, b], [c]) == MergeInto([b, b], []);
    assert MergePass(all)[0] == MergePass(all)[1];
    assert a != b && a != d && a != c && b != d && b != c && d != c;
  }

  /** `ZoneManager`: an ordered list of zones and the canvas size it was created with. */
  class ZoneManager {
    var zones: seq<Zone>
    var width: u32
    var height: u32

    /** `ZoneManager::new`: no zones yet. */
    constructor (width: u32, height: u32)
      ensures zones == [] && this.width == width && this.height == height
    {
      zones := [];
      this.width := width;
      this.height := height;
    }

    /**
     * `add_zone`: appends the zone unless an equal one (same corners and same size) is
     * already present; existing entries are untouched and uniqueness is preserved.
     */
    method AddZone(zone: Zone)
      modifies this`zones
      ensures zones == if zone in old(zones) then old(zones) else old(zones) + [zone]
      ensures zone in zones && |old(zones)| <= |zones| <= |old(zones)| + 1
      ensures zones[..|old(zones)|] == old(zones)
      ensures Unique(old(zones)) ==> Unique(zones)
      ensures width == old(width) && height == old(height)
    {
      if zone !in zones {
        zones := zones + [zone];
      }
    }

    /**
     * `extend_zones`: rebuilds the list in one left-to-right pass, merging each zone into
     * the first already accepted zone whose `extend` answers `Some`, or accepting it.
     */
    method ExtendZones()
      modifies this`zones
      ensures zones == MergePass(old(zones))
      ensures |zones| <= |old(zones)|
      ensures width == old(width) && height == old(height)
    {
      var pending := zones;
      zones := [];
      for i := 0 to |pending|
        invariant MergeInto(zones, pending[i..]) == MergePass(pending)
      {
        var zone := pending[i];
        ghost var accepted := zones;
        var found := false;
        var j := 0;
        while j < |zones|
          invariant j <= |zones| && zones == accepted && !found
          invariant forall k :: 0 <= k < j ==> !Extended(accepted[k], zone).merged
        {
          var updated, merged := Extend(zones[j], zone);
          zones := zones[j := updated];
          if merged {
            found := true;
            break;
          }
          j := j + 1;
        }
        if !found {
          zones := zones + [zone];
        }
        AbsorbStep(accepted, zone, found, j, zones);
        assert pending[i..] == [zone] + pending[i + 1..];
      }
      MergePassBounds(pending);
    }
  }

  /** The zones of `test_zone_manager_extend`, as `Zone::new` builds them. */
  lemma ManagerTestZones()
    ensures New(Point(0, 0), Point(5, 5)) == Zone(Point(0, 0), Point(5, 5), 50)
    ensures New(Point(0, 0), Point(10, 10)) == Zone(Point(0, 0), Point(10, 10), 200)
    ensures New(Point(0, 0), Point(15, 15)) == Zone(Point(0, 0), Point(15, 15), 450)
    ensures New(Point(0, 0), Point(20, 20)) == Zone(Point(0, 0), Point(20, 20), 800)
    ensures New(Point(5, 5), Point(25, 25)) == Zone(Point(5, 5), Point(25, 25), 800)
  {
  }

  /**
   * `test_zone_manager_extend`, first round, run through the manager's own operations:
   * `(0,0)-(10,10)` absorbs `(0,0)-(5,5)` and is the only zone left.
   */
  method ManagerFirstRound() returns (manager: ZoneManager)
    ensures fresh(manager)
    ensures manager.zones == [Zone(Point(0, 0), Point(10, 10), 200)]
  {
    ManagerTestZones();
    manager := new ZoneManager(800, 600);
    manager.AddZone(New(Point(0, 0), Point(10, 10)));
    manager.AddZone(New(Point(0, 0), Point(5, 5)));
    MergePassExample();
    manager.ExtendZones();
  }

  /**
   * `test_zone_manager_extend`, second round, run through the manager's own operations.
   * `add_zone` skips the second `(0,0)-(10,10)`, equal to the zone still held, and the
   * pass leaves two zones where the test expects one.
   */
  method ManagerSecondRound(manager: ZoneManager)
    requires manager.zones == [Zone(Point(0, 0), Point(10, 10), 200)]
    modifies manager
    ensures |manager.zones| == 2
    ensures manager.zones == [Zone(Point(0, 0), Point(20, 20), 200), Zone(Point(5, 5), Point(25, 25), 800)]
  {
    ManagerTestZones();
    var zone := manager.zones[0];
    var zone3, zone4 := Zone(Point(0, 0), Point(5, 5), 50), Zone(Point(0, 0), Point(10, 10), 200);
    var zone5, zone6 := Zone(Point(0, 0), Point(15, 15), 450), Zone(Point(0, 0), Point(20, 20), 800);
    var zone7 := Zone(Point(5, 5), Point(25, 25), 800);
    manager.AddZone(zone3);
    manager.AddZone(zone4);
    assert manager.zones == [zone, zone3];
    assert zone5 !in [zone, zone3];
    manager.AddZone(zone5);
    assert manager.zones == [zone, zone3, zone5];
    assert zone6 !in [zone, zone3, zone5];
    manager.AddZone(zone6);
    assert manager.zones == [zone, zone3, zone5, zone6];
    assert zone7 !in [zone, zone3, zone5, zone6];
    manager.AddZone(zone7);
    assert manager.zones == [zone, zone3, zone5, zone6, zone7];
    MergePassSecondRound();
    manager.ExtendZones();
  }
}
