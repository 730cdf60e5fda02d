# Pixel scanning library, modelled in Dafny

This project models the integer core of a small Rust pixel-scanning library:

- the point predicates;
- rectangular zones and the manager that holds them, where `add_zone` refuses duplicates and `extend_zones` merges zones;
- RGBA colours, their tolerance comparison and the two-variant `Color` type;
- the aggregator that groups matched points by colour;
- the sequential scan engine, which walks an RGBA image row by row and calls a visitor for
  every pixel. The visitor can end the current row or the whole scan.

Modules follow the source files:

| module | file | source |
|---|---|---|
| `Points` | `point.dfy` | `src/data/point.rs` |
| `Zones` | `zone.dfy` | `src/data/better_call_zone.rs` |
| `Hsvs` | `hsv.dfy` | the HSV type, kept abstract |
| `RgbColors` | `rgb.dfy` | `src/image_analyzer/color/rgb.rs` |
| `Colors` | `color.dfy` | `src/image_analyzer/color.rs` |
| `Pixels` | `pixel.dfy` | `src/image_analyzer/pixel.rs` |
| `ImageAnalyzer` | `image_analyzer.dfy` | `src/image_analyzer.rs` |

How the source's entities are represented:

- **Integers.** `u32` and `u8` are subset types of `int`. No operation of the core can overflow them: `end - start` is taken only after the zone check, and a byte difference fits a byte.
- **Zones.** A `Zone` is a value. `Zone::extend` mutates `self` field by field, and the method `Zones.Extend` does the same on a local copy that it returns. `Zones.Extend` is proved equal to the declarative `Zones.Extended`.
- **Zone manager.** `ZoneManager` is a class whose `zones` field its methods reassign. `extend_zones` keeps its nested loops and its `found` flag, and is proved equal to the single left-to-right pass `Zones.MergePass`. `add_zone` keeps the entries pairwise distinct, but `extend_zones` does not: merging can grow a zone into an exact copy of another entry, corners and size alike (`Zones.MergePassCanDuplicate`).
- **Zone size.** A zone's `size` is a `f64` distance that the derived equality compares. The model carries the squared distance of the construction-time corners instead. `extend` never updates it.
- **HSV.** `Hsv` is an abstract type with equality. The RGB/HSV conversions are function-valued parameters (`RgbColors.Conversions`) about which nothing is assumed.
- **Pixel aggregator.** `_PixelVec` is the class `Pixels.PixelVec`. A ghost history `pushes` records every `(color, point)` pushed. Its invariant ties the groups to `Pixels.Aggregate(pushes)` and the count to the number of pushes.
- **Image.** The image is a width, a height and a total function from `(x, y)` to four bytes.
- **Visitor.** A `FnMut` visitor answers according to its state, and its state is whatever the calls it received made it. So the visitor is a function from the whole sequence of calls so far to its answer to the latest call. A scan starts after the calls `seen` that the visitor already received, which is how `detect_zones` threads one visitor through several scans.
- **Scans.** Each scan method returns the trace of calls it made. It is proved equal to a recursive specification (`RowScan`, `WindowScan`, `ZoneScan`, `ZonesScan`).
- **Panic.** The `panic!` of `pixel_detectv2` is an `Outcome` flag, and the calls made before it are kept.
- **Scan loops.** `pixel_detectv1` and `pixel_detectv2` share their loop body, from the RGB conversion through the `match`, but not their loop headers. `pixel_detectv1` iterates the image's `enumerate_rows` and each row's `enumerate`, and `pixel_detectv2` ranges over `start_y..height` and `start_x..width` with `get_pixel`. The model writes the labelled double loop once, over ranges. `ImageAnalyzer.ScanWindow` is the outer loop and `ImageAnalyzer.ScanRow` the inner one. `ScanRow` returns whether the row ended with `Break(Y)`, which stands for `break 'outer`. `continue 'outer` and `break` both just end the row, because nothing follows the inner loop.
- **Empty ranges.** A Rust range `a..b` with `a >= b` is empty. Dafny's `for` needs ordered bounds, so the upper bound used is the larger of the two.

## Model

| member | source | states |
|---|---|---|
| Points.New | src/data/point.rs:9-11 | the coordinates are stored unchanged |
| Points.IsAfter | src/data/point.rs:19-21 | `p.is_after(q)` holds iff `p` is not strictly before `q` on both axes |
| Points.IsBefore | src/data/point.rs:23-25 | `p.is_before(q)` holds iff `p` is not strictly beyond `q` on both axes, that is, iff `q.is_after(p)` |
| Points.IsUnder | src/data/point.rs:28-30 | `p.is_under(q)` holds iff `p` is not on a row above `q` |
| Points.IsAbove | src/data/point.rs:32-34 | `p.is_above(q)` holds iff `p` is not on a row below `q`, that is, iff `q.is_under(p)` |
| Points.AfterOrBefore | src/data/point.rs:19-25 | for any two points `is_after` or `is_before` holds; both hold exactly when neither point is strictly beyond the other on both axes |
| Points.UnderAndAbove | src/data/point.rs:28-34 | `is_under` and `is_above` both hold exactly when the rows are equal, and one of them always holds |
| Points.IsInside | src/data/point.rs:36-38 | `is_inside(min, max)` holds iff `min.x < x < max.x` and `min.y < y < max.y` (an open box) |
| Points.EdgesNotInside | src/data/point.rs:36-38 | a point on an edge or corner of the box is never inside |
| Points.ThinBoxIsEmpty | src/data/point.rs:36-38 | no point is inside a box less than two units wide or high, which includes swapped or equal corners |
| Zones.New | src/data/better_call_zone.rs:13-21 | the corners are kept as given and the size is the squared distance between them |
| Zones.Area | src/data/better_call_zone.rs:26-32 | the minima are the smaller corner coordinates, unclamped; each maximum is at most the canvas bound and at most the larger corner coordinate, and equals one of the two, so it is the larger coordinate clamped to the canvas |
| Zones.AreaIgnoresCornerOrder | src/data/better_call_zone.rs:26-32 | swapping `start` and `end` gives the same box |
| Zones.AreaOrderedIffOnCanvas | src/data/better_call_zone.rs:26-32 | on each axis `min <= max` iff the smaller corner coordinate is within the canvas |
| Zones.AreaCanBeInverted | src/data/better_call_zone.rs:26-32 | a zone off the canvas gets `min_x > max_x` |
| Zones.Includes | src/data/better_call_zone.rs:34-38 | `self` includes `other` iff `other`'s smaller corner coordinates are at least `self`'s and its larger ones, clamped to 800x600, are at most `self`'s |
| Zones.IncludesReflexive | src/data/better_call_zone.rs:34-38 | every zone includes itself |
| Zones.IncludesTransitive | src/data/better_call_zone.rs:34-38 | inclusion on the 800x600 canvas is transitive |
| Zones.IncludesExamples | src/data/better_call_zone.rs:140-158 | the area and includes tests: `(0,0)-(10,10)` has box `(0,0,10,10)` and includes itself and `(0,0)-(5,5)`, but not the other way round |
| Zones.IsInside | src/data/better_call_zone.rs:40-42 | a point is inside a zone iff it lies strictly between `start` and `end`, taken as given |
| Zones.IsInsideExamples | src/data/better_call_zone.rs:160-165 | `(5,5)` is inside `(0,0)-(10,10)`; its corners are not; the swapped zone contains nothing |
| Zones.Extend | src/data/better_call_zone.rs:44-84 | the field-by-field update yields the zone and the `Some`/`None` answer of the declarative merge heuristic |
| Zones.ExtendNoneIff | src/data/better_call_zone.rs:44-84 | the answer is `None` iff no corner is shared and the argument's clamped box is not inside `self`'s; `self` is then unchanged; the size is never changed |
| Zones.ExtendSharedStart | src/data/better_call_zone.rs:47-54 | with a shared start the answer is `Some`, the start is kept, and the end becomes the componentwise maximum of both ends |
| Zones.ExtendSharedEnd | src/data/better_call_zone.rs:55-62 | with a shared end (and different starts) the answer is `Some`, the end is kept, and the start becomes the componentwise minimum of both starts |
| Zones.ExtendSharedStartCovers | src/data/better_call_zone.rs:47-54 | for normalised zones with a shared start, the merged zone includes both zones |
| Zones.ExtendSomeWithoutCovering | src/data/better_call_zone.rs:71-78 | `(0,0)-(5,5)` extended by `(5,5)-(25,25)` answers `Some`, stays unchanged, and does not include the argument |
| Zones.ExtendExamples | src/data/better_call_zone.rs:167-174 | the extend tests: both calls answer `Some` and leave `(0,0)-(10,10)` as it was |
| Zones.Absorb | src/data/better_call_zone.rs:114-124 | one zone of the pass grows the list by one exactly when no accepted zone's `extend` answers `Some`, and otherwise keeps its length |
| Zones.AbsorbFirst | src/data/better_call_zone.rs:116-121 | the zone is merged into the first accepted zone that takes it; every other entry is unchanged |
| Zones.AbsorbNone | src/data/better_call_zone.rs:122-124 | a zone that no accepted zone takes is appended at the end |
| Zones.MergeInto | src/data/better_call_zone.rs:111-126 | merging pending zones into accepted ones never shrinks the accepted list and adds at most one zone per pending zone |
| Zones.MergePassBounds | src/data/better_call_zone.rs:111-126 | the pass never increases the number of zones and keeps at least one zone of a non-empty list |
| Zones.MergePassExample | src/data/better_call_zone.rs:186-196 | `[(0,0)-(10,10), (0,0)-(5,5)]` becomes `[(0,0)-(10,10)]` |
| Zones.MergePassOrderDependent | src/data/better_call_zone.rs:111-126 | the same three zones collapse to one zone in one order and leave two in the reverse order |
| Zones.MergePassSecondRound | src/data/better_call_zone.rs:198-211 | the pass over the list that the second round of the manager test builds yields two zones, `(0,0)-(20,20)` and `(5,5)-(25,25)` |
| Zones.MergePassCanDuplicate | src/data/better_call_zone.rs:111-126 | four pairwise distinct zones `(10,0)-(0,10)`, `(5,0)-(15,10)`, `(5,0)-(0,10)`, `(5,0)-(15,5)` become two equal zones: the pass does not keep the entries unique |
| Zones.ManagerTestZones | src/data/better_call_zone.rs:187-204 | the zones of the manager test, with the sizes `Zone::new` gives them |
| Zones.ManagerFirstRound | src/data/better_call_zone.rs:186-196 | adding `(0,0)-(10,10)` and `(0,0)-(5,5)` to a new manager and extending leaves only `(0,0)-(10,10)` |
| Zones.ManagerSecondRound | src/data/better_call_zone.rs:198-211 | `add_zone` skips the second `(0,0)-(10,10)`, which equals the zone held, and `extend_zones` then leaves exactly two zones, `(0,0)-(20,20)` and `(5,5)-(25,25)` |
| Zones.ZoneManager.constructor | src/data/better_call_zone.rs:96-102 | a new manager has no zones and the given width and height |
| Zones.ZoneManager.AddZone | src/data/better_call_zone.rs:104-109 | the zone is appended iff no equal zone is present; afterwards it is present, earlier entries are unchanged, the length grew by at most one, and uniqueness is kept |
| Zones.ZoneManager.ExtendZones | src/data/better_call_zone.rs:111-126 | the list becomes the single merge pass over the old list; the count does not grow; width and height are unchanged |
| RgbColors.AbsDiff | src/image_analyzer/color/rgb.rs:16-19 | the `i16` absolute difference of two bytes is one of the two differences and fits a byte |
| RgbColors.Diff | src/image_analyzer/color/rgb.rs:14-21 | each channel is the absolute difference of the matching channels |
| RgbColors.DiffSymmetric | src/image_analyzer/color/rgb.rs:14-21 | `a.diff(b) == b.diff(a)` |
| RgbColors.DiffZeroIffEqual | src/image_analyzer/color/rgb.rs:14-21 | the difference is all zeros iff the colours are equal |
| RgbColors.Compare | src/image_analyzer/color/rgb.rs:23-26 | the colours match iff every channel of one is within the matching tolerance channel of the other, in both directions |
| RgbColors.CompareReflexive | src/image_analyzer/color/rgb.rs:23-26 | every colour matches itself under any tolerance |
| RgbColors.CompareSymmetric | src/image_analyzer/color/rgb.rs:23-26 | matching does not depend on the order of the two colours |
| RgbColors.CompareExact | src/image_analyzer/color/rgb.rs:23-26 | with a zero tolerance, matching is equality |
| RgbColors.CompareMonotone | src/image_analyzer/color/rgb.rs:23-26 | raising any tolerance channel never turns a match into a mismatch |
| RgbColors.CompareFromHsv | src/image_analyzer/color/rgb.rs:28-31 | comparing with an HSV colour is comparing with its RGB conversion |
| RgbColors.FromRgb | src/image_analyzer/color/rgb.rs:39-49 | three bytes become red, green and blue in order, with alpha 255 |
| RgbColors.FromRgba | src/image_analyzer/color/rgb.rs:51-61 | four bytes become the four channels in order |
| RgbColors.FromRgbaRoundTrip | src/image_analyzer/color/rgb.rs:51-61 | converting a colour's four bytes back gives the colour |
| Colors.GetRgb | src/image_analyzer/color.rs:16-21 | an RGB colour gives its value back; an HSV colour gives its conversion |
| Colors.GetHsv | src/image_analyzer/color.rs:23-28 | an HSV colour gives its value back; an RGB colour gives its conversion |
| Pixels.Extend | src/image_analyzer/pixel.rs:13-15 | the other group's points follow this group's unchanged, and the colour is kept |
| Pixels.ExtendAddsToTotal | src/image_analyzer/pixel.rs:13-15 | extending one group adds exactly the other group's points to the total |
| Pixels.Pushed | src/image_analyzer/pixel.rs:29-39 | a push adds at most one group |
| Pixels.PushedExisting | src/image_analyzer/pixel.rs:31-34 | pushing a present colour appends the point to its first group only; the group count is kept |
| Pixels.PushedNew | src/image_analyzer/pixel.rs:35-38 | pushing a new colour appends the group `{color, [point]}` and leaves earlier groups untouched |
| Pixels.PushedTotal | src/image_analyzer/pixel.rs:29-39 | every push adds one point to the total |
| Pixels.AggregateTotal | src/image_analyzer/pixel.rs:29-39 | after any pushes, the points over all groups number the pushes |
| Pixels.PushKeepsDistinct | src/image_analyzer/pixel.rs:31-38 | a push keeps the group colours pairwise distinct |
| Pixels.PushKeepsGroupsMatch | src/image_analyzer/pixel.rs:31-38 | a push keeps every group equal to the points pushed with its colour, in order |
| Pixels.PushKeepsColorsCovered | src/image_analyzer/pixel.rs:31-38 | a push keeps a group for every colour pushed |
| Pixels.AggregateGroups | src/image_analyzer/pixel.rs:29-39 | after any pushes, colours are distinct, each group holds exactly the points pushed with its colour, none is empty, and the group colours are exactly the colours pushed |
| Pixels.PixelVec.constructor | src/image_analyzer/pixel.rs:25-27 | a new aggregator has no groups and a zero count |
| Pixels.PixelVec.Push | src/image_analyzer/pixel.rs:29-39 | the count grows by one, the groups become the push applied to the old groups, and the invariant is kept |
| Pixels.CountMatchesGroups | src/image_analyzer/pixel.rs:19-39 | the running count always equals the points held in the groups, and the colours are distinct |
| ImageAnalyzer.ScanRow | src/image_analyzer.rs:143-163 | the inner loop makes exactly the calls of the row specification and reports `Break(Y)` as the end of the scan |
| ImageAnalyzer.ScanWindow | src/image_analyzer.rs:142-164 | the labelled double loop makes exactly the calls of the window specification, in order |
| ImageAnalyzer.PixelDetectV1 | src/image_analyzer.rs:67-93 | the calls are those of a scan of the whole image |
| ImageAnalyzer.PixelDetectV2 | src/image_analyzer.rs:95-165 | it panics, with no call made, iff the partial zone is not ordered or ends off the image; a full zone makes the same calls as `pixel_detectv1` |
| ImageAnalyzer.DetectZones | src/image_analyzer.rs:179-186 | the calls are those of each zone's scan in list order, with the visitor carried across, up to the first panic |
| ImageAnalyzer.BatchZones | src/image_analyzer.rs:167-177 | the result is the list of first occurrences |
| ImageAnalyzer.FirstOccurrencesSpec | src/image_analyzer.rs:167-177 | the first occurrences have no duplicates, contain exactly the input's zones, and keep the order of first occurrence |
| ImageAnalyzer.RowScanInRow | src/image_analyzer.rs:143-146 | every call of a row is for a column of the range on that row and carries the pixel's bytes as an RGB colour |
| ImageAnalyzer.WindowScanInWindow | src/image_analyzer.rs:142-146 | every call of a scan is for a pixel of the window and carries that pixel's bytes as an RGB colour |
| ImageAnalyzer.PartialScanInBounds | src/image_analyzer.rs:99-146 | a valid partial zone only makes calls for pixels in `[start, end - start)`, hence inside both the zone and the image |
| ImageAnalyzer.EmptyWindowScan | src/image_analyzer.rs:142-143 | a window with no columns or no rows makes no call |
| ImageAnalyzer.NarrowPartialScanIsEmpty | src/image_analyzer.rs:110-143 | a valid partial zone whose start is at least half-way to its end on an axis makes no call at all |
| ImageAnalyzer.SilentRowScan | src/image_analyzer.rs:143-146 | a visitor that never answers is called for every column of the row, in order |
| ImageAnalyzer.SilentWindowScan | src/image_analyzer.rs:142-146 | a visitor that never answers is called for every pixel of the window, row after row |
| ImageAnalyzer.FullScanAt | src/image_analyzer.rs:71-74 | with a visitor that never answers, the call for `(x, y)` is the `(y * width + x)`-th |
| ImageAnalyzer.FullScanLength | src/image_analyzer.rs:71-74 | with a visitor that never answers, a full scan makes `width * height` calls |
| ImageAnalyzer.FullScanRowMajor | src/image_analyzer.rs:71-74 | with a visitor that never answers, a full scan makes `width * height` calls in row-major order, each with its pixel's bytes |
| ImageAnalyzer.RowScanByEffect | src/image_analyzer.rs:147-161 | two visitors whose answers have the same effect make a row scan identically |
| ImageAnalyzer.WindowScanByEffect | src/image_analyzer.rs:76-89 | two visitors whose answers have the same effect make identical scans, so `Continue(X)`, `Continue(Y)` and `Break(X)` are interchangeable |
| ImageAnalyzer.RowScanAnswers | src/image_analyzer.rs:147-161 | within a row every call but the last was answered `None`, and the row ends the scan iff its last call was answered `Break(Y)` |
| ImageAnalyzer.BreakYIsLast | src/image_analyzer.rs:83-85 | no call of a scan but the last is answered `Break(Y)`: the visitor is not called after it |
| ImageAnalyzer.ZonesScanPanics | src/image_analyzer.rs:179-186 | `detect_zones` panics iff some zone of the list is invalid |
| ImageAnalyzer.ZoneListedTwiceScannedTwice | src/image_analyzer.rs:179-186 | with a visitor that never answers, a zone listed twice is scanned twice: there is no deduplication across zones |

## Left out

- `par_pixel_detectv1` (src/image_analyzer.rs:38-65) is not modelled. Its point is concurrency: a spawned thread, rayon's `par_bridge` and an mpsc channel deliver pixels in an unspecified order.
- `Point::distance` is not modelled, because it is floating-point `sqrt`. The model carries the exact squared distance, so two sizes are equal exactly when the distances are. Rounding collisions between different `f64` distances are not captured.
- `Hsv`, its fields and its `compare` are not modelled: the HSV type and the conversion module are not part of this model and work in floating point. `Rgb::compare_to_hsv` is left out for the same reason. `Rgb::compare_from_hsv` is modelled, with the conversion as a parameter.
- Equality on `Hsv` is assumed to be reflexive. The source derives `PartialEq` on float fields, and a NaN component would make a colour unequal to itself. `push` would then open a new group for every push of such a colour, where `Pixels.Pushed` and `Pixels.AggregateGroups` put those pushes in one group.
- `src/utils/benchmark.rs` and `src/main.rs` are not modelled: they are wall-clock timing, printing and command-line glue.
- The `image` crate's `ImageBuffer` is replaced by a width, a height and a sampling function. `ImageAnalyzer::new` only stores the buffer, so it has no counterpart.
- Serde derives and `Debug` are not modelled.
- `Zones.Extend` returns the updated zone instead of mutating `self` through `&mut`. A `Zone` lives by value in a `Vec` and the reference is unique, so nothing else observes the change. The returned `&Zone` is reduced to whether it was `Some`.
- `Pixels.Extend` returns the extended group instead of appending to `self.points` in place, for the same reason.
- `Pixels.PixelVec.Push`: `points_count` is a `usize`, modelled as an unbounded `nat`. Its overflow after 2^64 pushes is not modelled.
- The final assertion of the zone manager test (src/data/better_call_zone.rs:209-211) expects one zone. `Zones.ManagerSecondRound` proves, through `add_zone` and `extend_zones`, that the code as written leaves two.
- `ImageAnalyzer.PixelDetectV1`: the two detectors share their loop body, and here the whole loop is one pair of methods, `ImageAnalyzer.ScanWindow` and `ImageAnalyzer.ScanRow`, with `break 'outer` as `ScanRow`'s result. `pixel_detectv1` iterates the image crate's `enumerate_rows` and each row's `enumerate`. The model assumes, and does not prove, that these visit rows `0..height` in order and, within a row, `x` in `0..width` with the pixel at `(x, y)`, which are the row-major positions `pixel_detectv2`'s ranges visit over the full image. The image crate is not part of this model.
- `ImageAnalyzer.PixelDetectV2`: the source checks the zone twice, once for the width and once for the height. The two checks are identical, so the model checks once.
