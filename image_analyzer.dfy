/**
 * The sequential scan engine (src/image_analyzer.rs): row-major scans of an RGBA raster
 * driven by a visitor that can end the current row or the whole scan, zone-restricted
 * scans, zone batching and multi-zone detection.
 */
module ImageAnalyzer {
  import opened Points
  import opened Colors
  import R = RgbColors

  datatype Option<T> = None | Some(value: T)

  datatype Axis = X | Y

  /** What the visitor may answer besides `None`. */
  datatype LoopResult = Continue(axis: Axis) | Break(axis: Axis)

  /** The whole image, or the zone between two corners. */
  datatype ImageZone = Full | Partial(start: Point, end: Point)

  /** The four bytes of one RGBA sample. */
  type Rgba = s: seq<R.u8> | |s| == 4 witness [0, 0, 0, 0]

  /** The raster: its size and the RGBA sample at every position on it. */
  datatype Image = Image(width: u32, height: u32, sample: (u32, u32) -> Rgba)

  /** `get_pixel`: defined on the image only, where the source would panic outside it. */
  function GetPixel(img: Image, x: u32, y: u32): Rgba
    requires x < img.width && y < img.height
  {
    img.sample(x, y)
  }

  /** One call of the visitor: the colour and the position it was given. */
  datatype Visit = Visit(color: Color, point: Point)

  /**
   * The visitor, seen from the scan. A `FnMut` closure answers according to its state,
   * and its state is whatever the calls it has received made it, so the visitor is a
   * function from all the calls it has received, the latest last, to its answer to that
   * latest call.
   */
  type Visitor = seq<Visit> -> Option<LoopResult>

  /** The call made for the pixel at `(x, y)`: its bytes unchanged as an RGB colour. */
  function VisitAt(img: Image, x: u32, y: u32): Visit
    requires x < img.width && y < img.height
  {
    Visit(Colors.Rgb(R.FromRgba(GetPixel(img, x, y))), Point(x, y))
  }

  /** The calls made in one row, and whether the last answer ended the whole scan. */
  datatype RowOutcome = RowOutcome(visits: seq<Visit>, stop: bool)

  /**
   * The inner loop over `x` in `x..xEnd` on row `y`, after the visitor has received
   * `seen`. `Continue(Y)` continues the outer loop, `Continue(X)` and `Break(X)` break the
   * inner one (with nothing after the inner loop, all three end the row), and `Break(Y)`
   * breaks the outer loop.
   */
  function RowScan(img: Image, visitor: Visitor, seen: seq<Visit>, y: nat, x: nat, xEnd: nat): RowOutcome
    requires y < img.height && xEnd <= img.width
    decreases xEnd - x
  {
    if xEnd <= x then RowOutcome([], false)
    else
      var v := VisitAt(img, x, y);
      match visitor(seen + [v])
      case None =>
        var rest := RowScan(img, visitor, seen + [v], y, x + 1, xEnd);
        RowOutcome([v] + rest.visits, rest.stop)
      case Some(Continue(Y)) => RowOutcome([v], false)
      case Some(Continue(X)) => RowOutcome([v], false)
      case Some(Break(Y)) => RowOutcome([v], true)
      case Some(Break(X)) => RowOutcome([v], false)
  }

  /** The labelled double loop over rows `y..yEnd` and columns `x0..xEnd`: every call made, in order. */
  function WindowScan(img: Image, visitor: Visitor, seen: seq<Visit>, x0: nat, xEnd: nat, y: nat, yEnd: nat): seq<Visit>
    requires xEnd <= img.width && yEnd <= img.height
    decreases yEnd - y
  {
    if yEnd <= y then []
    else
      var row := RowScan(img, visitor, seen, y, x0, xEnd);
      if row.stop then row.visits
      else row.visits + WindowScan(img, visitor, seen + row.visits, x0, xEnd, y + 1, yEnd)
  }

  /** The calls made by a scan of the whole image. */
  function FullScan(img: Image, visitor: Visitor, seen: seq<Visit>): seq<Visit> {
    WindowScan(img, visitor, seen, 0, img.width, 0, img.height)
  }

  /** The calls made by a scan, and whether it panicked (after making them). */
  datatype Outcome = Outcome(visits: seq<Visit>, panicked: bool)

  /** The zone check of `pixel_detectv2`: a partial zone must be ordered and end on the image. */
  predicate ValidZone(img: Image, zone: ImageZone) {
    zone.Partial? ==> zone.start.x <= zone.end.x && zone.start.y <= zone.end.y
                      && zone.end.x <= img.width && zone.end.y <= img.height
  }

  /**
   * `pixel_detectv2`: a full zone is scanned like `pixel_detectv1`; a partial zone panics
   * before any call unless it is valid, and is otherwise scanned over rows
   * `start.y..end.y - start.y` and columns `start.x..end.x - start.x`.
   */
  function ZoneScan(img: Image, visitor: Visitor, seen: seq<Visit>, zone: ImageZone): Outcome {
    match zone
    case Full => Outcome(FullScan(img, visitor, seen), false)
    case Partial(s, e) =>
      if !ValidZone(img, zone) then Outcome([], true)
      else Outcome(WindowScan(img, visitor, seen, s.x, e.x - s.x, s.y, e.y - s.y), false)
  }

  /** `detect_zones`: one scan per zone, in list order, the visitor carried across; the first panic ends it. */
  function ZonesScan(img: Image, visitor: Visitor, seen: seq<Visit>, zones: seq<ImageZone>): Outcome
    decreases |zones|
  {
    if zones == [] then Outcome([], false)
    else
      var first := ZoneScan(img, visitor, seen, zones[0]);
      if first.panicked then first
      else
        var rest := ZonesScan(img, visitor, seen + first.visits, zones[1..]);
        Outcome(first.visits + rest.visits, rest.panicked)
  }

  /**
   * The inner loop of the scan, on row `y` over columns `x0..xEnd`: a call per pixel; the
   * row ends at an answer other than `None`, and `endScan` reports a `Break(Y)`, the
   * source's `break 'outer` (`Continue(Y)` is its `continue 'outer`, which on the last
   * statement of the outer loop just ends the row).
   */
  method ScanRow(img: Image, visitor: Visitor, seen: seq<Visit>, y: u32, x0: u32, xEnd: u32)
    returns (visits: seq<Visit>, endScan: bool)
    requires y < img.height && xEnd <= img.width
    ensures RowOutcome(visits, endScan) == RowScan(img, visitor, seen, y, x0, xEnd)
  {
    visits := [];
    // A Rust range `a..b` with `a >= b` is empty; a Dafny `for` needs ordered bounds.
    var xStop := if x0 < xEnd then xEnd else x0;
    assert seen + visits == seen;
    for x := x0 to xStop
      invariant RowScan(img, visitor, seen, y, x0, xEnd) == Prefixed(visits, RowScan(img, visitor, seen + visits, y, x, xEnd))
    {
      var pixel := GetPixel(img, x, y);
      var rgb := R.FromRgba(pixel);
      var visit := Visit(Colors.Rgb(rgb), Point(x, y));
      RowStep(img, visitor, seen, visits, y, x, xEnd);
      visits := visits + [visit];
      var loopResult := visitor(seen + visits);
      if loopResult.Some? {
        match loopResult.value
        case Continue(Y) =>
          return visits, false;
        case Continue(X) =>
          return visits, false;
        case Break(Y) =>
          return visits, true;
        case Break(X) =>
          return visits, false;
      }
    }
    assert visits + [] == visits;
    endScan := false;
  }

  /** A row's calls after the calls before it, with its outcome. */
  function Prefixed(before: seq<Visit>, row: RowOutcome): RowOutcome {
    RowOutcome(before + row.visits, row.stop)
  }

  /** One pixel of the inner loop: the call for it, then the visitor's answer decides. */
  lemma RowStep(img: Image, visitor: Visitor, seen: seq<Visit>, visits: seq<Visit>, y: nat, x: nat, xEnd: nat)
    requires y < img.height && x < xEnd <= img.width
    ensures var after := visits + [VisitAt(img, x, y)];
      visitor(seen + after) == None ==>
        Prefixed(visits, RowScan(img, visitor, seen + visits, y, x, xEnd))
        == Prefixed(after, RowScan(img, visitor, seen + after, y, x + 1, xEnd))
    ensures var after := visits + [VisitAt(img, x, y)];
      visitor(seen + after) != None ==>
        Prefixed(visits, RowScan(img, visitor, seen + visits, y, x, xEnd))
        == RowOutcome(after, visitor(seen + after) == Some(Break(Y)))
  {
    var v := VisitAt(img, x, y);
    assert seen + (visits + [v]) == (seen + visits) + [v];
  }

  /** The outer loop after a row: the scan ends with the row, or goes on from the next one. */
  lemma RowThenRest(img: Image, visitor: Visitor, seen: seq<Visit>, before: seq<Visit>, x0: nat, xEnd: nat, y: nat, yEnd: nat)
    requires xEnd <= img.width && yEnd <= img.height && y < yEnd
    ensures var row := RowScan(img, visitor, seen + before, y, x0, xEnd);
      before + WindowScan(img, visitor, seen + before, x0, xEnd, y, yEnd)
      == if row.stop then before + row.visits
         else (before + row.visits) + WindowScan(img, visitor, seen + (before + row.visits), x0, xEnd, y + 1, yEnd)
  {
    var row := RowScan(img, visitor, seen + before, y, x0, xEnd);
    assert seen + before + row.visits == seen + (before + row.visits);
  }

  /**
   * The outer loop of the scan, over rows `y0..yEnd`: each row scanned in turn, until a
   * row ends with `Break(Y)`.
   */
  method ScanWindow(img: Image, visitor: Visitor, seen: seq<Visit>, x0: u32, xEnd: u32, y0: u32, yEnd: u32)
    returns (trace: seq<Visit>)
    requires xEnd <= img.width && yEnd <= img.height
    ensures trace == WindowScan(img, visitor, seen, x0, xEnd, y0, yEnd)
  {
    trace := [];
    var yStop := if y0 < yEnd then yEnd else y0;
    assert seen + trace == seen;
    for y := y0 to yStop
      invariant WindowScan(img, visitor, seen, x0, xEnd, y0, yEnd)
                == trace + WindowScan(img, visitor, seen + trace, x0, xEnd, y, yEnd)
    {
      var row, endScan := ScanRow(img, visitor, seen + trace, y, x0, xEnd);
      RowThenRest(img, visitor, seen, trace, x0, xEnd, y, yEnd);
      trace := trace + row;
      if endScan {
        return;
      }
    }
  }

  /**
   * `pixel_detectv1`: one call per pixel, rows top to bottom, as the visitor's answers allow.
   * `enumerate_rows` is taken to yield rows `0..height` in order and, within a row, `x` in
   * `0..width` with the pixel at `(x, y)`; the scan over those ranges is `ScanWindow`.
   */
  method PixelDetectV1(img: Image, visitor: Visitor, seen: seq<Visit>) returns (trace: seq<Visit>)
    ensures trace == FullScan(img, visitor, seen)
  {
    trace := ScanWindow(img, visitor, seen, 0, img.width, 0, img.height);
  }

  /**
   * `pixel_detectv2`: panics on an invalid partial zone, before any call; a full zone
   * makes the same calls as `pixel_detectv1`.
   */
  method PixelDetectV2(img: Image, zone: ImageZone, visitor: Visitor, seen: seq<Visit>) returns (outcome: Outcome)
    ensures outcome == ZoneScan(img, visitor, seen, zone)
    ensures outcome.panicked <==> !ValidZone(img, zone)
    ensures outcome.panicked ==> outcome.visits == []
    ensures zone.Full? ==> outcome.visits == FullScan(img, visitor, seen)
  {
    var width: u32, height: u32;
    match zone {
      case Full =>
        width, height := img.width, img.height;
      case Partial(start, end) =>
        // The source checks the zone twice, once for the width and once for the height.
        if start.x > end.x || start.y > end.y || end.x > img.width || end.y > img.height {
          return Outcome([], true);  // panic!("Invalid zone")
        }
        width, height := end.x - start.x, end.y - start.y;
    }
    var startY := if zone.Full? then 0 else zone.start.y;
    var startX := if zone.Full? then 0 else zone.start.x;
    var trace := ScanWindow(img, visitor, seen, startX, width, startY, height);
    outcome := Outcome(trace, false);
  }

  /** `detect_zones`: `pixel_detectv2` for each zone in turn, with the same visitor. */
  method DetectZones(img: Image, zones: seq<ImageZone>, visitor: Visitor, seen: seq<Visit>) returns (outcome: Outcome)
    ensures outcome == ZonesScan(img, visitor, seen, zones)
  {
    var visits := [];
    assert seen + visits == seen && zones[0..] == zones;
    for i := 0 to |zones|
      invariant ZonesScan(img, visitor, seen, zones) == After(visits, ZonesScan(img, visitor, seen + visits, zones[i..]))
    {
      ZoneThenRest(img, visitor, seen, visits, zones, i);
      var one := PixelDetectV2(img, zones[i], visitor, seen + visits);
      if one.panicked {
        return Outcome(visits, true);
      }
      visits := visits + one.visits;
    }
    assert zones[|zones|..] == [] && visits + [] == visits;
    outcome := Outcome(visits, false);
  }

  /** An outcome after the calls `before`. */
  function After(before: seq<Visit>, outcome: Outcome): Outcome {
    Outcome(before + outcome.visits, outcome.panicked)
  }

  /** The loop of `detect_zones` after one zone: it panicked, or goes on with the next zone. */
  lemma ZoneThenRest(img: Image, visitor: Visitor, seen: seq<Visit>, before: seq<Visit>, zones: seq<ImageZone>, i: nat)
    requires i < |zones|
    ensures var one := ZoneScan(img, visitor, seen + before, zones[i]);
      After(before, ZonesScan(img, visitor, seen + before, zones[i..]))
      == if one.panicked then Outcome(before, true)
         else After(before + one.visits, ZonesScan(img, visitor, seen + (before + one.visits), zones[i + 1..]))
  {
    var one := ZoneScan(img, visitor, seen + before, zones[i]);
    assert zones[i..][1..] == zones[i + 1..];
    assert seen + before + one.visits == seen + (before + one.visits);
    assert one.panicked ==> one.visits == [] && before + one.visits == before;
  }

  /** The distinct elements of `zones`, each where it first occurs. */
  function FirstOccurrences(zones: seq<ImageZone>): seq<ImageZone> {
    if zones == [] then []
    else
      var init, last := zones[..|zones| - 1], zones[|zones| - 1];
      if last in init then FirstOccurrences(init) else FirstOccurrences(init) + [last]
  }

  /** The position of the first occurrence of `z` in `zones`. */
  function FirstIndex(zones: seq<ImageZone>, z: ImageZone): (i: nat)
    requires z in zones
    ensures i < |zones| && zones[i] == z && z !in zones[..i]
  {
    if zones[0] == z then 0 else 1 + FirstIndex(zones[1..], z)
  }

  /** Adding elements at the end does not move a first occurrence. */
  lemma {:induction false} FirstIndexOfPrefix(zones: seq<ImageZone>, n: nat, z: ImageZone)
    requires n <= |zones| && z in zones[..n]
    ensures FirstIndex(zones, z) == FirstIndex(zones[..n], z)
  {
    if zones[0] != z {
      assert zones[1..][..n - 1] == zones[..n][1..];
      FirstIndexOfPrefix(zones[1..], n - 1, z);
    }
  }

  /**
   * Deduplication by exact equality: no element twice, exactly the elements of the input,
   * and in the order of their first occurrences.
   */
  lemma {:induction false} FirstOccurrencesSpec(zones: seq<ImageZone>)
    ensures var r := FirstOccurrences(zones);
      && (forall i, j :: 0 <= i < j < |r| ==> r[i] != r[j])
      && (forall z :: z in r <==> z in zones)
      && (forall i, j :: 0 <= i < j < |r| ==> FirstIndex(zones, r[i]) < FirstIndex(zones, r[j]))
  {
    if zones != [] {
      var init, last := zones[..|zones| - 1], zones[|zones| - 1];
      FirstOccurrencesSpec(init);
      var r0 := FirstOccurrences(init);
      assert zones == init + [last];
      forall z | z in r0 ensures FirstIndex(zones, z) == FirstIndex(init, z) {
        FirstIndexOfPrefix(zones, |init|, z);
      }
      if last !in init {
        assert FirstIndex(zones, last) == |init|;
      }
    }
  }

  /** `batch_zones`: keeps each zone unless an equal one was already kept. */
  method BatchZones(zones: seq<ImageZone>) returns (result: seq<ImageZone>)
    ensures result == FirstOccurrences(zones)
  {
    result := [];
    for i := 0 to |zones|
      invariant result == FirstOccurrences(zones[..i])
    {
      var zone := zones[i];
      FirstOccurrencesSpec(zones[..i]);
      assert zones[..i + 1][..i] == zones[..i];
      if zone !in result {
        result := result + [zone];
      }
    }
    assert zones[..|zones|] == zones;
  }

  /** Every call of a scan is for a pixel of the window, and carries that pixel's bytes unchanged. */
  lemma {:induction false} WindowScanInWindow(img: Image, visitor: Visitor, seen: seq<Visit>, x0: nat, xEnd: nat, y: nat, yEnd: nat)
    requires xEnd <= img.width && yEnd <= img.height
    ensures forall v :: v in WindowScan(img, visitor, seen, x0, xEnd, y, yEnd) ==>
      x0 <= v.point.x < xEnd && y <= v.point.y < yEnd && v == VisitAt(img, v.point.x, v.point.y)
    decreases yEnd - y
  {
    if y < yEnd {
      var row := RowScan(img, visitor, seen, y, x0, xEnd);
      RowScanInRow(img, visitor, seen, y, x0, xEnd);
      if !row.stop {
        WindowScanInWindow(img, visitor, seen + row.visits, x0, xEnd, y + 1, yEnd);
      }
    }
  }

  lemma {:induction false} RowScanInRow(img: Image, visitor: Visitor, seen: seq<Visit>, y: nat, x: nat, xEnd: nat)
    requires y < img.height && xEnd <= img.width
    ensures forall v :: v in RowScan(img, visitor, seen, y, x, xEnd).visits ==>
      x <= v.point.x < xEnd && v.point.y == y && v == VisitAt(img, v.point.x, v.point.y)
    decreases xEnd - x
  {
    if x < xEnd {
      var v := VisitAt(img, x, y);
      if visitor(seen + [v]) == None {
        RowScanInRow(img, visitor, seen + [v], y, x + 1, xEnd);
      }
    }
  }

  /**
   * A valid partial zone only makes calls for pixels inside both the image and the zone:
   * the loop bounds `end - start` never exceed `end`.
   */
  lemma PartialScanInBounds(img: Image, visitor: Visitor, seen: seq<Visit>, s: Point, e: Point)
    requires ValidZone(img, Partial(s, e))
    ensures forall v :: v in ZoneScan(img, visitor, seen, Partial(s, e)).visits ==>
      s.x <= v.point.x < e.x - s.x && s.y <= v.point.y < e.y - s.y
      && v.point.x < e.x <= img.width && v.point.y < e.y <= img.height
  {
    WindowScanInWindow(img, visitor, seen, s.x, e.x - s.x, s.y, e.y - s.y);
  }

  /**
   * A valid partial zone whose start is at least half-way to its end on either axis makes
   * no call at all, however large the zone.
   */
  lemma NarrowPartialScanIsEmpty(img: Image, visitor: Visitor, seen: seq<Visit>, s: Point, e: Point)
    requires ValidZone(img, Partial(s, e))
    requires s.x >= e.x - s.x || s.y >= e.y - s.y
    ensures ZoneScan(img, visitor, seen, Partial(s, e)) == Outcome([], false)
  {
    EmptyWindowScan(img, visitor, seen, s.x, e.x - s.x, s.y, e.y - s.y);
  }

  /** A window with no columns or no rows makes no call. */
  lemma {:induction false} EmptyWindowScan(img: Image, visitor: Visitor, seen: seq<Visit>, x0: nat, xEnd: nat, y: nat, yEnd: nat)
    requires xEnd <= img.width && yEnd <= img.height
    requires xEnd <= x0 || yEnd <= y
    ensures WindowScan(img, visitor, seen, x0, xEnd, y, yEnd) == []
    decreases yEnd - y
  {
    if y < yEnd {
      assert seen + [] == seen;
      EmptyWindowScan(img, visitor, seen, x0, xEnd, y + 1, yEnd);
    }
  }

  /** A visitor that never answers. */
  ghost predicate Silent(visitor: Visitor) {
    forall calls :: visitor(calls) == None
  }

  /** Row `y`, columns `x..xEnd`, in order: the reference for a scan nothing interrupts. */
  function RowPixels(img: Image, y: nat, x: nat, xEnd: nat): seq<Visit>
    requires y < img.height && xEnd <= img.width
    decreases xEnd - x
  {
    if xEnd <= x then [] else [VisitAt(img, x, y)] + RowPixels(img, y, x + 1, xEnd)
  }

  /** Rows `y..yEnd` of columns `x0..xEnd`, row after row. */
  function GridPixels(img: Image, x0: nat, xEnd: nat, y: nat, yEnd: nat): seq<Visit>
    requires xEnd <= img.width && yEnd <= img.height
    decreases yEnd - y
  {
    if yEnd <= y then [] else RowPixels(img, y, x0, xEnd) + GridPixels(img, x0, xEnd, y + 1, yEnd)
  }

  /** A visitor that never answers is called for every pixel of the window, row after row. */
  lemma {:induction false} SilentWindowScan(img: Image, visitor: Visitor, seen: seq<Visit>, x0: nat, xEnd: nat, y: nat, yEnd: nat)
    requires xEnd <= img.width && yEnd <= img.height && Silent(visitor)
    ensures WindowScan(img, visitor, seen, x0, xEnd, y, yEnd) == GridPixels(img, x0, xEnd, y, yEnd)
    decreases yEnd - y
  {
    if y < yEnd {
      SilentRowScan(img, visitor, seen, y, x0, xEnd);
      var row := RowScan(img, visitor, seen, y, x0, xEnd);
      SilentWindowScan(img, visitor, seen + row.visits, x0, xEnd, y + 1, yEnd);
    }
  }

  lemma {:induction false} SilentRowScan(img: Image, visitor: Visitor, seen: seq<Visit>, y: nat, x: nat, xEnd: nat)
    requires y < img.height && xEnd <= img.width && Silent(visitor)
    ensures RowScan(img, visitor, seen, y, x, xEnd) == RowOutcome(RowPixels(img, y, x, xEnd), false)
    decreases xEnd - x
  {
    if x < xEnd {
      var v := VisitAt(img, x, y);
      assert visitor(seen + [v]) == None;
      SilentRowScan(img, visitor, seen + [v], y, x + 1, xEnd);
    }
  }

  lemma {:induction false} RowPixelsLength(img: Image, y: nat, x0: nat, xEnd: nat)
    requires y < img.height && x0 <= xEnd <= img.width
    ensures |RowPixels(img, y, x0, xEnd)| == xEnd - x0
    decreases xEnd - x0
  {
    if x0 < xEnd {
      RowPixelsLength(img, y, x0 + 1, xEnd);
    }
  }

  lemma {:induction false} RowPixelsAt(img: Image, y: nat, x0: nat, xEnd: nat, x: nat)
    requires y < img.height && xEnd <= img.width && x0 <= x < xEnd
    ensures x - x0 < |RowPixels(img, y, x0, xEnd)| && RowPixels(img, y, x0, xEnd)[x - x0] == VisitAt(img, x, y)
    decreases x - x0
  {
    RowPixelsLength(img, y, x0, xEnd);
    if x0 < x {
      RowPixelsAt(img, y, x0 + 1, xEnd, x);
    }
  }

  /** Where row `k` starts in a row-major grid of rows `w` wide: `k * w`, without the product. */
  function RowOffset(k: nat, w: nat): nat {
    if k == 0 then 0 else w + RowOffset(k - 1, w)
  }

  lemma {:induction false} RowOffsetIsProduct(k: nat, w: nat)
    ensures RowOffset(k, w) == k * w
  {
    if k > 0 {
      RowOffsetIsProduct(k - 1, w);
      assert k * w == (k - 1) * w + w;
    }
  }

  lemma {:induction false} GridPixelsLength(img: Image, xEnd: nat, y0: nat, yEnd: nat)
    requires xEnd <= img.width && y0 <= yEnd <= img.height
    ensures |GridPixels(img, 0, xEnd, y0, yEnd)| == RowOffset(yEnd - y0, xEnd)
    decreases yEnd - y0
  {
    if y0 < yEnd {
      GridPixelsLength(img, xEnd, y0 + 1, yEnd);
      RowPixelsLength(img, y0, 0, xEnd);
    }
  }

  /** The pixel `x` of the `k`-th row of the grid sits where that row starts, plus `x`. */
  lemma {:induction false} GridPixelsAt(img: Image, xEnd: nat, y0: nat, yEnd: nat, x: nat, k: nat)
    requires xEnd <= img.width && yEnd <= img.height && x < xEnd && y0 + k < yEnd
    ensures RowOffset(k, xEnd) + x < |GridPixels(img, 0, xEnd, y0, yEnd)|
      && GridPixels(img, 0, xEnd, y0, yEnd)[RowOffset(k, xEnd) + x] == VisitAt(img, x, y0 + k)
    decreases k
  {
    var row := RowPixels(img, y0, 0, xEnd);
    var rest := GridPixels(img, 0, xEnd, y0 + 1, yEnd);
    assert GridPixels(img, 0, xEnd, y0, yEnd) == row + rest;
    RowPixelsLength(img, y0, 0, xEnd);
    if k == 0 {
      RowPixelsAt(img, y0, 0, xEnd, x);
    } else {
      GridPixelsAt(img, xEnd, y0 + 1, yEnd, x, k - 1);
      assert RowOffset(k, xEnd) + x == |row| + (RowOffset(k - 1, xEnd) + x);
    }
  }

  /** The call for the pixel `(x, y)` is the `(y * width + x)`-th of `trace`. */
  predicate CalledInRowMajorOrder(img: Image, trace: seq<Visit>, x: u32, y: u32)
    requires x < img.width && y < img.height
  {
    y * img.width + x < |trace| && trace[y * img.width + x] == VisitAt(img, x, y)
  }

  lemma FullScanAt(img: Image, visitor: Visitor, seen: seq<Visit>, x: u32, y: u32)
    requires Silent(visitor) && x < img.width && y < img.height
    ensures CalledInRowMajorOrder(img, FullScan(img, visitor, seen), x, y)
  {
    SilentWindowScan(img, visitor, seen, 0, img.width, 0, img.height);
    GridPixelsAt(img, img.width, 0, img.height, x, y);
    RowOffsetIsProduct(y, img.width);
  }

  lemma FullScanLength(img: Image, visitor: Visitor, seen: seq<Visit>)
    requires Silent(visitor)
    ensures |FullScan(img, visitor, seen)| == img.height * img.width
  {
    SilentWindowScan(img, visitor, seen, 0, img.width, 0, img.height);
    GridPixelsLength(img, img.width, 0, img.height);
    RowOffsetIsProduct(img.height, img.width);
  }

  /**
   * A full scan with a visitor that never answers calls it exactly `width * height`
   * times, for `(0,0), (1,0), ..., (width-1, height-1)` in row-major order, each with
   * that pixel's bytes as an RGB colour.
   */
  lemma FullScanRowMajor(img: Image, visitor: Visitor, seen: seq<Visit>)
    requires Silent(visitor)
    ensures |FullScan(img, visitor, seen)| == img.height * img.width
    ensures forall x: u32, y: u32 :: x < img.width && y < img.height ==>
      CalledInRowMajorOrder(img, FullScan(img, visitor, seen), x, y)
  {
    FullScanLength(img, visitor, seen);
    forall x: u32, y: u32 | x < img.width && y < img.height
      ensures CalledInRowMajorOrder(img, FullScan(img, visitor, seen), x, y)
    {
      FullScanAt(img, visitor, seen, x, y);
    }
  }

  /** What an answer does to the loops: next pixel, next row, or end of scan. */
  datatype Effect = NextPixel | NextRow | EndScan

  function EffectOf(answer: Option<LoopResult>): Effect {
    match answer
    case None => NextPixel
    case Some(Break(Y)) => EndScan
    case Some(_) => NextRow
  }

  /**
   * Only the effect of each answer matters: in particular `Continue(X)`, `Continue(Y)`
   * and `Break(X)` are interchangeable, all three ending the current row only.
   */
  lemma {:induction false} WindowScanByEffect(img: Image, v1: Visitor, v2: Visitor, seen: seq<Visit>, x0: nat, xEnd: nat, y: nat, yEnd: nat)
    requires xEnd <= img.width && yEnd <= img.height
    requires forall calls :: EffectOf(v1(calls)) == EffectOf(v2(calls))
    ensures WindowScan(img, v1, seen, x0, xEnd, y, yEnd) == WindowScan(img, v2, seen, x0, xEnd, y, yEnd)
    decreases yEnd - y
  {
    if y < yEnd {
      RowScanByEffect(img, v1, v2, seen, y, x0, xEnd);
      var row := RowScan(img, v1, seen, y, x0, xEnd);
      WindowScanByEffect(img, v1, v2, seen + row.visits, x0, xEnd, y + 1, yEnd);
    }
  }

  lemma {:induction false} RowScanByEffect(img: Image, v1: Visitor, v2: Visitor, seen: seq<Visit>, y: nat, x: nat, xEnd: nat)
    requires y < img.height && xEnd <= img.width
    requires forall calls :: EffectOf(v1(calls)) == EffectOf(v2(calls))
    ensures RowScan(img, v1, seen, y, x, xEnd) == RowScan(img, v2, seen, y, x, xEnd)
    decreases xEnd - x
  {
    if x < xEnd {
      var v := VisitAt(img, x, y);
      assert EffectOf(v1(seen + [v])) == EffectOf(v2(seen + [v]));
      RowScanByEffect(img, v1, v2, seen + [v], y, x + 1, xEnd);
    }
  }

  /**
   * Within a row every call but the last was answered `None`; the row ends the scan
   * exactly when its last call was answered `Break(Y)`.
   */
  lemma {:induction false} RowScanAnswers(img: Image, visitor: Visitor, seen: seq<Visit>, y: nat, x: nat, xEnd: nat)
    requires y < img.height && xEnd <= img.width
    ensures var row := RowScan(img, visitor, seen, y, x, xEnd);
      && (forall k :: 0 < k < |row.visits| ==> visitor(seen + row.visits[..k]) == None)
      && (row.visits == [] ==> !row.stop)
      && (row.visits != [] ==> (row.stop <==> visitor(seen + row.visits) == Some(Break(Y))))
    decreases xEnd - x
  {
    if x < xEnd {
      var v := VisitAt(img, x, y);
      if visitor(seen + [v]) == None {
        RowScanAnswers(img, visitor, seen + [v], y, x + 1, xEnd);
        var rest := RowScan(img, visitor, seen + [v], y, x + 1, xEnd);
        var row := RowScan(img, visitor, seen, y, x, xEnd);
        assert row.visits == [v] + rest.visits;
        forall k | 0 < k < |row.visits| ensures visitor(seen + row.visits[..k]) == None {
          if k == 1 {
            assert row.visits[..k] == [v];
          } else {
            assert seen + row.visits[..k] == (seen + [v]) + rest.visits[..k - 1];
          }
        }
        if rest.visits == [] {
          assert row.visits == [v];
        } else {
          assert seen + row.visits == (seen + [v]) + rest.visits;
        }
      }
    }
  }

  /** No call of `trace` but the last was answered `Break(Y)`. */
  ghost predicate OnlyLastMayBreakY(visitor: Visitor, seen: seq<Visit>, trace: seq<Visit>) {
    forall k :: 0 < k < |trace| ==> visitor(seen + trace[..k]) != Some(Break(Y))
  }

  /** `Break(Y)` ends the scan: no call but the last of a scan is answered `Break(Y)`. */
  lemma {:induction false} BreakYIsLast(img: Image, visitor: Visitor, seen: seq<Visit>, x0: nat, xEnd: nat, y: nat, yEnd: nat)
    requires xEnd <= img.width && yEnd <= img.height
    ensures OnlyLastMayBreakY(visitor, seen, WindowScan(img, visitor, seen, x0, xEnd, y, yEnd))
    decreases yEnd - y
  {
    if y < yEnd {
      var trace := WindowScan(img, visitor, seen, x0, xEnd, y, yEnd);
      var row := RowScan(img, visitor, seen, y, x0, xEnd);
      RowScanAnswers(img, visitor, seen, y, x0, xEnd);
      if !row.stop {
        var rest := WindowScan(img, visitor, seen + row.visits, x0, xEnd, y + 1, yEnd);
        BreakYIsLast(img, visitor, seen + row.visits, x0, xEnd, y + 1, yEnd);
        assert trace == row.visits + rest;
        forall k | 0 < k < |trace| ensures visitor(seen + trace[..k]) != Some(Break(Y)) {
          if k < |row.visits| {
            assert trace[..k] == row.visits[..k];
            assert visitor(seen + row.visits[..k]) == None;
          } else if k == |row.visits| {
            assert trace[..k] == row.visits;
            assert visitor(seen + row.visits) != Some(Break(Y));
          } else {
            var j := k - |row.visits|;
            assert 0 < j < |rest|;
            assert seen + trace[..k] == (seen + row.visits) + rest[..j];
            assert visitor((seen + row.visits) + rest[..j]) != Some(Break(Y));
          }
        }
      }
    }
  }

  /**
   * `detect_zones` panics exactly when some zone is invalid; until then every zone is
   * scanned in turn.
   */
  lemma {:induction false} ZonesScanPanics(img: Image, visitor: Visitor, seen: seq<Visit>, zones: seq<ImageZone>)
    ensures ZonesScan(img, visitor, seen, zones).panicked <==> exists i :: 0 <= i < |zones| && !ValidZone(img, zones[i])
    decreases |zones|
  {
    if zones != [] {
      var first := ZoneScan(img, visitor, seen, zones[0]);
      ZonesScanPanics(img, visitor, seen + first.visits, zones[1..]);
      if exists i :: 0 <= i < |zones[1..]| && !ValidZone(img, zones[1..][i]) {
        var i :| 0 <= i < |zones[1..]| && !ValidZone(img, zones[1..][i]);
        assert zones[i + 1] == zones[1..][i];
      }
      if exists i :: 0 <= i < |zones| && !ValidZone(img, zones[i]) {
        var i :| 0 <= i < |zones| && !ValidZone(img, zones[i]);
        if i > 0 {
          assert zones[1..][i - 1] == zones[i];
        }
      }
    }
  }

  /**
   * `detect_zones` does not deduplicate across zones: with a visitor that never answers,
   * a zone listed twice is scanned twice, its pixels reported twice.
   */
  lemma ZoneListedTwiceScannedTwice(img: Image, visitor: Visitor, seen: seq<Visit>, zone: ImageZone)
    requires Silent(visitor) && ValidZone(img, zone)
    ensures var once := ZoneScan(img, visitor, seen, zone).visits;
      ZonesScan(img, visitor, seen, [zone, zone]) == Outcome(once + once, false)
  {
    var once := ZoneScan(img, visitor, seen, zone).visits;
    var again := ZoneScan(img, visitor, seen + once, zone).visits;
    match zone {
      case Full =>
        SilentWindowScan(img, visitor, seen, 0, img.width, 0, img.height);
        SilentWindowScan(img, visitor, seen + once, 0, img.width, 0, img.height);
      case Partial(s, e) =>
        SilentWindowScan(img, visitor, seen, s.x, e.x - s.x, s.y, e.y - s.y);
        SilentWindowScan(img, visitor, seen + once, s.x, e.x - s.x, s.y, e.y - s.y);
    }
    assert again == once;
    assert [zone, zone][1..] == [zone] && [zone][1..] == [];
    assert ZonesScan(img, visitor, seen + once, [zone]) == Outcome(again + [], false);
    assert again + [] == again;
  }
}
