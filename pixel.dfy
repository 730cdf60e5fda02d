/** Matched points grouped by exact colour, with a running count (src/image_analyzer/pixel.rs). */
module Pixels {
  import opened Points
  import opened Colors

  /** One colour group: the colour and its points in insertion order. */
  datatype Pixel = Pixel(color: Color, points: seq<Point>)

  /** `Pixel::extend`: the other group's points follow this group's; the colour is kept. */
  function Extend(self: Pixel, other: Pixel): (r: Pixel)
    ensures r.color == self.color && |r.points| == |self.points| + |other.points|
    ensures r.points[..|self.points|] == self.points && r.points[|self.points|..] == other.points
  {
    self.(points := self.points + other.points)
  }

  /** The number of points over all groups. */
  function TotalPoints(groups: seq<Pixel>): nat {
    if groups == [] then 0 else |groups[0].points| + TotalPoints(groups[1..])
  }

  /** Extending one group by another adds exactly the other's points to the total. */
  lemma {:induction false} ExtendAddsToTotal(groups: seq<Pixel>, i: nat, other: Pixel)
    requires i < |groups|
    ensures TotalPoints(groups[i := Extend(groups[i], other)]) == TotalPoints(groups) + |other.points|
  {
    if i > 0 {
      ExtendAddsToTotal(groups[1..], i - 1, other);
      assert groups[i := Extend(groups[i], other)][1..] == groups[1..][i - 1 := Extend(groups[i], other)];
    }
  }

  /** No two groups share a colour. */
  ghost predicate DistinctColors(groups: seq<Pixel>) {
    forall i, j :: 0 <= i < j < |groups| ==> groups[i].color != groups[j].color
  }

  /** `color` is the colour of some group. */
  ghost predicate HasColor(groups: seq<Pixel>, color: Color) {
    exists i :: 0 <= i < |groups| && groups[i].color == color
  }

  /**
   * The groups after one `push`: the point is appended to the first group of that colour,
   * or a new group holding just the point is appended after all others.
   */
  function Pushed(groups: seq<Pixel>, color: Color, point: Point): (r: seq<Pixel>)
    ensures |groups| <= |r| <= |groups| + 1
  {
    if groups == [] then [Pixel(color, [point])]
    else if groups[0].color == color then [groups[0].(points := groups[0].points + [point])] + groups[1..]
    else [groups[0]] + Pushed(groups[1..], color, point)
  }

  /** Pushing an existing colour appends to that group only and keeps the group count. */
  lemma {:induction false} PushedExisting(groups: seq<Pixel>, color: Color, point: Point, j: nat)
    requires j < |groups| && groups[j].color == color
    requires forall k :: 0 <= k < j ==> groups[k].color != color
    ensures Pushed(groups, color, point) == groups[j := groups[j].(points := groups[j].points + [point])]
  {
    if j > 0 {
      PushedExisting(groups[1..], color, point, j - 1);
    }
  }

  /** Pushing a new colour appends the group `{color, [point]}` and leaves the others untouched. */
  lemma {:induction false} PushedNew(groups: seq<Pixel>, color: Color, point: Point)
    requires forall k :: 0 <= k < |groups| ==> groups[k].color != color
    ensures Pushed(groups, color, point) == groups + [Pixel(color, [point])]
  {
    if groups != [] {
      PushedNew(groups[1..], color, point);
    }
  }

  /** The groups after pushing every pair of `pushes`, in order, into an empty aggregator. */
  function Aggregate(pushes: seq<(Color, Point)>): seq<Pixel> {
    if pushes == [] then []
    else Pushed(Aggregate(pushes[..|pushes| - 1]), pushes[|pushes| - 1].0, pushes[|pushes| - 1].1)
  }

  /** The points pushed with colour `color`, in push order. */
  function PointsOf(pushes: seq<(Color, Point)>, color: Color): seq<Point> {
    if pushes == [] then []
    else PointsOf(pushes[..|pushes| - 1], color)
         + (if pushes[|pushes| - 1].0 == color then [pushes[|pushes| - 1].1] else [])
  }

  /** Each push adds one point to the total. */
  lemma {:induction false} PushedTotal(groups: seq<Pixel>, color: Color, point: Point)
    ensures TotalPoints(Pushed(groups, color, point)) == TotalPoints(groups) + 1
  {
    if groups != [] && groups[0].color != color {
      PushedTotal(groups[1..], color, point);
    }
  }

  /** The running count matches the groups: the total over all groups is the number of pushes. */
  lemma {:induction false} AggregateTotal(pushes: seq<(Color, Point)>)
    ensures TotalPoints(Aggregate(pushes)) == |pushes|
  {
    if pushes != [] {
      AggregateTotal(pushes[..|pushes| - 1]);
      PushedTotal(Aggregate(pushes[..|pushes| - 1]), pushes[|pushes| - 1].0, pushes[|pushes| - 1].1);
    }
  }

  /** Each group holds exactly the points pushed with its colour, and at least one. */
  ghost predicate GroupsMatch(groups: seq<Pixel>, pushes: seq<(Color, Point)>) {
    forall i :: 0 <= i < |groups| ==> groups[i].points == PointsOf(pushes, groups[i].color) && groups[i].points != []
  }

  /** Every colour pushed has a group. */
  ghost predicate ColorsCovered(groups: seq<Pixel>, pushes: seq<(Color, Point)>) {
    forall c :: PointsOf(pushes, c) != [] ==> HasColor(groups, c)
  }

  lemma PointsOfSnoc(init: seq<(Color, Point)>, color: Color, point: Point, c: Color)
    ensures PointsOf(init + [(color, point)], c) == PointsOf(init, c) + (if color == c then [point] else [])
  {
    assert (init + [(color, point)])[..|init|] == init;
  }

  /** One push keeps the colours distinct. */
  lemma PushKeepsDistinct(groups: seq<Pixel>, color: Color, point: Point)
    requires DistinctColors(groups)
    ensures DistinctColors(Pushed(groups, color, point))
  {
    if j :| 0 <= j < |groups| && groups[j].color == color {
      var first := FirstWithColor(groups, color, j);
      PushedExisting(groups, color, point, first);
    } else {
      PushedNew(groups, color, point);
    }
  }

  /** One push keeps every group equal to the points pushed with its colour. */
  lemma PushKeepsGroupsMatch(groups: seq<Pixel>, pushes: seq<(Color, Point)>, color: Color, point: Point)
    requires DistinctColors(groups) && GroupsMatch(groups, pushes) && ColorsCovered(groups, pushes)
    ensures GroupsMatch(Pushed(groups, color, point), pushes + [(color, point)])
  {
    var after := Pushed(groups, color, point);
    forall i | 0 <= i < |after|
      ensures after[i].points == PointsOf(pushes + [(color, point)], after[i].color) && after[i].points != []
    {
      PointsOfSnoc(pushes, color, point, after[i].color);
      if j :| 0 <= j < |groups| && groups[j].color == color {
        PushedExisting(groups, color, point, j);
      } else {
        PushedNew(groups, color, point);
        if i == |groups| {
          assert !HasColor(groups, color);
        }
      }
    }
  }

  /** One push keeps a group for every colour pushed. */
  lemma PushKeepsColorsCovered(groups: seq<Pixel>, pushes: seq<(Color, Point)>, color: Color, point: Point)
    requires ColorsCovered(groups, pushes)
    ensures ColorsCovered(Pushed(groups, color, point), pushes + [(color, point)])
  {
    var after := Pushed(groups, color, point);
    forall c | PointsOf(pushes + [(color, point)], c) != [] ensures HasColor(after, c) {
      PointsOfSnoc(pushes, color, point, c);
      if j :| 0 <= j < |groups| && groups[j].color == color {
        var first := FirstWithColor(groups, color, j);
        PushedExisting(groups, color, point, first);
        if c != color {
          var i :| 0 <= i < |groups| && groups[i].color == c;
          assert after[i].color == c;
        } else {
          assert after[first].color == c;
        }
      } else {
        PushedNew(groups, color, point);
        if c != color {
          var i :| 0 <= i < |groups| && groups[i].color == c;
          assert after[i].color == c;
        } else {
          assert after[|groups|].color == c;
        }
      }
    }
  }

  /**
   * After any sequence of pushes the groups have pairwise distinct colours, exactly the
   * colours pushed, and each group holds exactly the points pushed with its colour, in
   * push order (so no group is empty).
   */
  lemma {:induction false} AggregateGroups(pushes: seq<(Color, Point)>)
    ensures DistinctColors(Aggregate(pushes))
    ensures GroupsMatch(Aggregate(pushes), pushes)
    ensures forall c :: HasColor(Aggregate(pushes), c) <==> PointsOf(pushes, c) != []
  {
    if pushes != [] {
      var init := pushes[..|pushes| - 1];
      var color, point := pushes[|pushes| - 1].0, pushes[|pushes| - 1].1;
      assert init + [(color, point)] == pushes;
      AggregateGroups(init);
      PushKeepsDistinct(Aggregate(init), color, point);
      PushKeepsGroupsMatch(Aggregate(init), init, color, point);
      PushKeepsColorsCovered(Aggregate(init), init, color, point);
    }
  }

  /** The first group of colour `color`, given that there is one at `j`. */
  lemma FirstWithColor(groups: seq<Pixel>, color: Color, j: nat) returns (first: nat)
    requires j < |groups| && groups[j].color == color
    ensures first <= j && groups[first].color == color
    ensures forall k :: 0 <= k < first ==> groups[k].color != color
    decreases j
  {
    if k :| 0 <= k < j && groups[k].color == color {
      first := FirstWithColor(groups, color, k);
    } else {
      first := j;
    }
  }

  /**
   * `_PixelVec`: the groups and the running count of points. The ghost `pushes` records
   * every `(color, point)` pushed so far.
   */
  class PixelVec {
    var pixels: seq<Pixel>
    var pointsCount: nat
    ghost var pushes: seq<(Color, Point)>

    ghost predicate Valid()
      reads this
    {
      pixels == Aggregate(pushes) && pointsCount == |pushes|
    }

    /** `_PixelVec::new`: no groups and no points. */
    constructor ()
      ensures Valid() && pixels == [] && pointsCount == 0 && pushes == []
    {
      pixels := [];
      pointsCount := 0;
      pushes := [];
    }

    /**
     * `push`: counts the point, then searches the groups for the colour and appends the
     * point to the group found or appends a new group.
     */
    method Push(color: Color, point: Point)
      requires Valid()
      modifies this
      ensures Valid() && pushes == old(pushes) + [(color, point)]
      ensures pointsCount == old(pointsCount) + 1
      ensures pixels == Pushed(old(pixels), color, point)
    {
      pointsCount := pointsCount + 1;
      pushes := pushes + [(color, point)];
      assert pushes[..|pushes| - 1] == old(pushes);
      var i := 0;
      while i < |pixels|
        invariant i <= |pixels|
        invariant forall k :: 0 <= k < i ==> pixels[k].color != color
      {
        if pixels[i].color == color {
          PushedExisting(pixels, color, point, i);
          pixels := pixels[i := pixels[i].(points := pixels[i].points + [point])];
          return;
        }
        i := i + 1;
      }
      PushedNew(pixels, color, point);
      pixels := pixels + [Pixel(color, [point])];
    }
  }

  /** Whatever was pushed, the running count is the number of points held in the groups. */
  lemma CountMatchesGroups(v: PixelVec)
    requires v.Valid()
    ensures v.pointsCount == TotalPoints(v.pixels)
    ensures DistinctColors(v.pixels)
  {
    AggregateTotal(v.pushes);
    AggregateGroups(v.pushes);
  }
}
