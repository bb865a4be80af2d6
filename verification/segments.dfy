/**
 * The street-geometry rules of app/src/components/Map/WebMap.tsx: cutting a
 * street polyline into drawable segments, at long gaps or around
 * intersections, the spot-count bucket shown on tap, and when the street
 * geometry is reloaded. Distances are parameters.
 *
 * Each segmenter also returns, per segment, the half-open index range of
 * the input it was cut from.
 */
module Segments {
  import opened Wrappers
  import opened Types

  /** A [lng, lat] pair. */
  type Coord = (real, real)

  /** A half-open index range [lo, hi) of the input. */
  datatype Range = Range(lo: nat, hi: nat)

  const GapMetres: real := 15.0
  const IntersectionMetres: real := 8.0

  /** The ranges are slices of `coords` of at least two points, in input order and disjoint, and give `segs`. */
  predicate SlicesOf(coords: seq<Coord>, segs: seq<seq<Coord>>, ranges: seq<Range>) {
    && |ranges| == |segs|
    && (forall k :: 0 <= k < |ranges| ==>
          ranges[k].lo + 2 <= ranges[k].hi <= |coords| && segs[k] == coords[ranges[k].lo..ranges[k].hi])
    && (forall k :: 0 <= k < |ranges| - 1 ==> ranges[k].hi <= ranges[k + 1].lo)
  }

  /** The pair (j, j+1) lies inside one of the ranges. */
  ghost predicate Covered(ranges: seq<Range>, j: int) {
    exists k :: 0 <= k < |ranges| && ranges[k].lo <= j && j + 1 < ranges[k].hi
  }

  lemma CoveredAppend(ranges: seq<Range>, r: Range, j: int)
    requires Covered(ranges, j)
    ensures Covered(ranges + [r], j)
  {
    var k :| 0 <= k < |ranges| && ranges[k].lo <= j && j + 1 < ranges[k].hi;
    assert (ranges + [r])[k] == ranges[k];
  }

  lemma CoveredByLast(ranges: seq<Range>, r: Range, j: int)
    requires r.lo <= j && j + 1 < r.hi
    ensures Covered(ranges + [r], j)
  {
    assert (ranges + [r])[|ranges|] == r;
  }

  /** A new slice after every existing range keeps the slices disjoint and in order. */
  lemma SlicesAppend(coords: seq<Coord>, segs: seq<seq<Coord>>, ranges: seq<Range>, start: nat, hi: nat)
    requires SlicesOf(coords, segs, ranges)
    requires forall k :: 0 <= k < |ranges| ==> ranges[k].hi <= start
    requires start + 2 <= hi <= |coords|
    ensures SlicesOf(coords, segs + [coords[start..hi]], ranges + [Range(start, hi)])
  {
    var rs := ranges + [Range(start, hi)];
    var ss := segs + [coords[start..hi]];
    assert forall k :: 0 <= k < |ranges| ==> rs[k] == ranges[k] && ss[k] == segs[k];
  }

  // ---------------------------------------------------------------------
  // Cutting at gaps
  // ---------------------------------------------------------------------

  /**
   * Consecutive points j and j+1 are more than 15 m apart. The distance is
   * None when computing it throws, which never cuts.
   */
  predicate Far(coords: seq<Coord>, gap: (Coord, Coord) -> Option<real>, j: int)
    requires 0 <= j < |coords| - 1
  {
    var d := gap(coords[j], coords[j + 1]);
    d.Some? && d.value > GapMetres
  }

  /** No long gap inside a segment. */
  ghost predicate NoGapInside(coords: seq<Coord>, gap: (Coord, Coord) -> Option<real>, ranges: seq<Range>)
    requires forall k :: 0 <= k < |ranges| ==> ranges[k].hi <= |coords|
  {
    forall k, j :: 0 <= k < |ranges| && ranges[k].lo <= j < ranges[k].hi - 1 ==> !Far(coords, gap, j)
  }

  /** Each segment starts at the input's start or after a long gap, and ends at the input's end or before one. */
  ghost predicate GapBounded(coords: seq<Coord>, gap: (Coord, Coord) -> Option<real>, ranges: seq<Range>)
    requires forall k :: 0 <= k < |ranges| ==> ranges[k].lo < ranges[k].hi <= |coords|
  {
    forall k :: 0 <= k < |ranges| ==>
      && (ranges[k].lo == 0 || Far(coords, gap, ranges[k].lo - 1))
      && (ranges[k].hi == |coords| || Far(coords, gap, ranges[k].hi - 1))
  }

  /** The segments are exactly the maximal gap-free runs of at least two points. */
  ghost predicate GapSegments(coords: seq<Coord>, gap: (Coord, Coord) -> Option<real>, segs: seq<seq<Coord>>, ranges: seq<Range>) {
    && SlicesOf(coords, segs, ranges)
    && NoGapInside(coords, gap, ranges)
    && GapBounded(coords, gap, ranges)
    && (forall j :: 0 <= j < |coords| - 1 && !Far(coords, gap, j) ==> Covered(ranges, j))
  }

  /** The loop state: segments so far end before `start`; coords[start..i] is the open run. */
  ghost predicate GapLoop(coords: seq<Coord>, gap: (Coord, Coord) -> Option<real>, segs: seq<seq<Coord>>, ranges: seq<Range>,
                          start: nat, i: nat) {
    && start <= i <= |coords|
    && SlicesOf(coords, segs, ranges)
    && (forall k :: 0 <= k < |ranges| ==> ranges[k].hi <= start)
    && NoGapInside(coords, gap, ranges)
    && GapBounded(coords, gap, ranges)
    && (start == 0 || (start < |coords| && Far(coords, gap, start - 1)))
    && (forall j :: start <= j < i && j < |coords| - 1 ==> !Far(coords, gap, j))
    && (forall j :: 0 <= j < start && j < |coords| - 1 && !Far(coords, gap, j) ==> Covered(ranges, j))
  }

  lemma NoGapAppend(coords: seq<Coord>, gap: (Coord, Coord) -> Option<real>, ranges: seq<Range>, start: nat, hi: nat)
    requires forall k :: 0 <= k < |ranges| ==> ranges[k].hi <= |coords|
    requires NoGapInside(coords, gap, ranges) && hi <= |coords|
    requires forall j :: start <= j < hi - 1 && j < |coords| - 1 ==> !Far(coords, gap, j)
    ensures NoGapInside(coords, gap, ranges + [Range(start, hi)])
  {
    var rs := ranges + [Range(start, hi)];
    assert forall k :: 0 <= k < |ranges| ==> rs[k] == ranges[k];
  }

  lemma GapBoundedAppend(coords: seq<Coord>, gap: (Coord, Coord) -> Option<real>, ranges: seq<Range>, start: nat, hi: nat)
    requires forall k :: 0 <= k < |ranges| ==> ranges[k].lo < ranges[k].hi <= |coords|
    requires GapBounded(coords, gap, ranges) && start < hi <= |coords|
    requires start == 0 || Far(coords, gap, start - 1)
    requires hi == |coords| || Far(coords, gap, hi - 1)
    ensures GapBounded(coords, gap, ranges + [Range(start, hi)])
  {
    var rs := ranges + [Range(start, hi)];
    assert forall k :: 0 <= k < |ranges| ==> rs[k] == ranges[k];
  }

  lemma GapCoversAppend(coords: seq<Coord>, gap: (Coord, Coord) -> Option<real>, ranges: seq<Range>, start: nat, hi: nat)
    requires start < hi <= |coords| && (hi == |coords| || Far(coords, gap, hi - 1))
    requires forall j :: 0 <= j < start && j < |coords| - 1 && !Far(coords, gap, j) ==> Covered(ranges, j)
    ensures forall j :: 0 <= j < hi && j < |coords| - 1 && !Far(coords, gap, j) ==> Covered(ranges + [Range(start, hi)], j)
  {
    var r := Range(start, hi);
    forall j | 0 <= j < hi && j < |coords| - 1 && !Far(coords, gap, j)
      ensures Covered(ranges + [r], j)
    {
      if j < start {
        CoveredAppend(ranges, r, j);
      } else {
        CoveredByLast(ranges, r, j);
      }
    }
  }

  /** Closing the open run at `hi` as a segment. */
  lemma EmitRun(coords: seq<Coord>, gap: (Coord, Coord) -> Option<real>, segs: seq<seq<Coord>>, ranges: seq<Range>,
                start: nat, i: nat, hi: nat)
    requires GapLoop(coords, gap, segs, ranges, start, i)
    requires hi == i + 1 <= |coords| && start + 2 <= hi
    requires hi == |coords| || Far(coords, gap, i)
    ensures var r := Range(start, hi);
            && SlicesOf(coords, segs + [coords[start..hi]], ranges + [r])
            && NoGapInside(coords, gap, ranges + [r])
            && GapBounded(coords, gap, ranges + [r])
            && (forall j :: 0 <= j < hi && j < |coords| - 1 && !Far(coords, gap, j) ==> Covered(ranges + [r], j))
  {
    SlicesAppend(coords, segs, ranges, start, hi);
    NoGapAppend(coords, gap, ranges, start, hi);
    GapBoundedAppend(coords, gap, ranges, start, hi);
    GapCoversAppend(coords, gap, ranges, start, hi);
  }

  /** A pair without a long gap extends the open run. */
  lemma GapAdvance(coords: seq<Coord>, gap: (Coord, Coord) -> Option<real>, segs: seq<seq<Coord>>, ranges: seq<Range>,
                   start: nat, i: nat)
    requires GapLoop(coords, gap, segs, ranges, start, i) && i < |coords|
    requires !(i + 1 < |coords| && Far(coords, gap, i))
    ensures GapLoop(coords, gap, segs, ranges, start, i + 1)
  {
  }

  /** A long gap after point i closes a run of at least two points as a segment. */
  lemma GapCutEmit(coords: seq<Coord>, gap: (Coord, Coord) -> Option<real>, segs: seq<seq<Coord>>, ranges: seq<Range>,
                   start: nat, i: nat)
    requires GapLoop(coords, gap, segs, ranges, start, i)
    requires i + 1 < |coords| && Far(coords, gap, i) && start + 2 <= i + 1
    ensures GapLoop(coords, gap, segs + [coords[start..i + 1]], ranges + [Range(start, i + 1)], i + 1, i + 1)
  {
    var r := Range(start, i + 1);
    SlicesAppend(coords, segs, ranges, start, i + 1);
    NoGapAppend(coords, gap, ranges, start, i + 1);
    GapBoundedAppend(coords, gap, ranges, start, i + 1);
    GapCoversAppend(coords, gap, ranges, start, i + 1);
    var rs := ranges + [r];
    assert forall k :: 0 <= k < |ranges| ==> rs[k] == ranges[k];
    assert rs[|ranges|] == r;
  }

  /** A long gap right after a lone point drops that point. */
  lemma GapCutDrop(coords: seq<Coord>, gap: (Coord, Coord) -> Option<real>, segs: seq<seq<Coord>>, ranges: seq<Range>,
                   start: nat, i: nat)
    requires GapLoop(coords, gap, segs, ranges, start, i)
    requires i + 1 < |coords| && Far(coords, gap, i) && i + 1 < start + 2
    ensures GapLoop(coords, gap, segs, ranges, i + 1, i + 1)
  {
    assert start == i;
  }

  /** At the end of the input the open run becomes the last segment when it has two points. */
  lemma GapFinish(coords: seq<Coord>, gap: (Coord, Coord) -> Option<real>, segs: seq<seq<Coord>>, ranges: seq<Range>,
                  start: nat)
    requires GapLoop(coords, gap, segs, ranges, start, |coords|)
    ensures start + 2 <= |coords| ==>
              GapSegments(coords, gap, segs + [coords[start..]], ranges + [Range(start, |coords|)])
    ensures start + 2 > |coords| ==> GapSegments(coords, gap, segs, ranges)
  {
    if start + 2 <= |coords| {
      EmitRun(coords, gap, segs, ranges, start, |coords| - 1, |coords|);
      assert coords[start..] == coords[start..|coords|];
    }
  }

  /**
   * `createContinuousSegments`: the maximal runs between long gaps, keeping
   * only runs of at least two points.
   */
  method ContinuousSegments(coords: seq<Coord>, gap: (Coord, Coord) -> Option<real>)
    returns (segs: seq<seq<Coord>>, ranges: seq<Range>)
    ensures |coords| < 2 ==> segs == []
    ensures GapSegments(coords, gap, segs, ranges)
  {
    segs, ranges := [], [];
    if |coords| < 2 {
      return;
    }
    var start := 0;
    var i := 0;
    while i < |coords|
      invariant GapLoop(coords, gap, segs, ranges, start, i)
    {
      if i + 1 < |coords| && Far(coords, gap, i) {
        if i + 1 - start >= 2 {
          GapCutEmit(coords, gap, segs, ranges, start, i);
          segs, ranges := segs + [coords[start..i + 1]], ranges + [Range(start, i + 1)];
        } else {
          GapCutDrop(coords, gap, segs, ranges, start, i);
        }
        start := i + 1;
      } else {
        GapAdvance(coords, gap, segs, ranges, start, i);
      }
      i := i + 1;
    }
    GapFinish(coords, gap, segs, ranges, start);
    if |coords| - start >= 2 {
      segs, ranges := segs + [coords[start..]], ranges + [Range(start, |coords|)];
    }
  }

  // ---------------------------------------------------------------------
  // Cutting around intersections
  // ---------------------------------------------------------------------

  /** The point is within 8 m of some intersection point. */
  predicate Near(c: Coord, intersections: seq<Coord>, distance: (Coord, Coord) -> real) {
    exists j :: 0 <= j < |intersections| && distance(c, intersections[j]) < IntersectionMetres
  }

  /** No point of a segment is near an intersection. */
  ghost predicate ClearInside(coords: seq<Coord>, near: Coord -> bool, ranges: seq<Range>)
    requires forall k :: 0 <= k < |ranges| ==> ranges[k].hi <= |coords|
  {
    forall k, j :: 0 <= k < |ranges| && ranges[k].lo <= j < ranges[k].hi ==> !near(coords[j])
  }

  /** Each segment starts at the input's start or just after a near point, and ends at the input's end or just before one. */
  ghost predicate NearBounded(coords: seq<Coord>, near: Coord -> bool, ranges: seq<Range>)
    requires forall k :: 0 <= k < |ranges| ==> ranges[k].lo < ranges[k].hi <= |coords|
  {
    forall k :: 0 <= k < |ranges| ==>
      && (ranges[k].lo == 0 || near(coords[ranges[k].lo - 1]))
      && (ranges[k].hi == |coords| || near(coords[ranges[k].hi]))
  }

  /** The segments are exactly the maximal runs of at least two points none of which is near an intersection. */
  ghost predicate ClearSegments(coords: seq<Coord>, near: Coord -> bool, segs: seq<seq<Coord>>, ranges: seq<Range>) {
    && SlicesOf(coords, segs, ranges)
    && ClearInside(coords, near, ranges)
    && NearBounded(coords, near, ranges)
    && (forall j :: 0 <= j < |coords| - 1 && !near(coords[j]) && !near(coords[j + 1]) ==> Covered(ranges, j))
  }

  ghost predicate ClearLoop(coords: seq<Coord>, near: Coord -> bool, segs: seq<seq<Coord>>, ranges: seq<Range>,
                            start: nat, i: nat) {
    && start <= i <= |coords|
    && SlicesOf(coords, segs, ranges)
    && (forall k :: 0 <= k < |ranges| ==> ranges[k].hi <= start)
    && ClearInside(coords, near, ranges)
    && NearBounded(coords, near, ranges)
    && (start == 0 || near(coords[start - 1]))
    && (forall j :: start <= j < i ==> !near(coords[j]))
    && (forall j :: 0 <= j < start && j < |coords| - 1 && !near(coords[j]) && !near(coords[j + 1]) ==> Covered(ranges, j))
  }

  lemma ClearInsideAppend(coords: seq<Coord>, near: Coord -> bool, ranges: seq<Range>, start: nat, hi: nat)
    requires forall k :: 0 <= k < |ranges| ==> ranges[k].hi <= |coords|
    requires ClearInside(coords, near, ranges) && hi <= |coords|
    requires forall j :: start <= j < hi ==> !near(coords[j])
    ensures ClearInside(coords, near, ranges + [Range(start, hi)])
  {
    var rs := ranges + [Range(start, hi)];
    assert forall k :: 0 <= k < |ranges| ==> rs[k] == ranges[k];
  }

  lemma NearBoundedAppend(coords: seq<Coord>, near: Coord -> bool, ranges: seq<Range>, start: nat, hi: nat)
    requires forall k :: 0 <= k < |ranges| ==> ranges[k].lo < ranges[k].hi <= |coords|
    requires NearBounded(coords, near, ranges) && start < hi <= |coords|
    requires start == 0 || near(coords[start - 1])
    requires hi == |coords| || near(coords[hi])
    ensures NearBounded(coords, near, ranges + [Range(start, hi)])
  {
    var rs := ranges + [Range(start, hi)];
    assert forall k :: 0 <= k < |ranges| ==> rs[k] == ranges[k];
  }

  lemma ClearCoversAppend(coords: seq<Coord>, near: Coord -> bool, ranges: seq<Range>, start: nat, hi: nat)
    requires hi <= |coords| && (hi == |coords| || near(coords[hi]))
    requires forall j :: 0 <= j < start && j < |coords| - 1 && !near(coords[j]) && !near(coords[j + 1]) ==> Covered(ranges, j)
    ensures forall j :: 0 <= j <= hi && j < |coords| - 1 && !near(coords[j]) && !near(coords[j + 1]) ==> Covered(ranges + [Range(start, hi)], j)
  {
    var r := Range(start, hi);
    forall j | 0 <= j <= hi && j < |coords| - 1 && !near(coords[j]) && !near(coords[j + 1])
      ensures Covered(ranges + [r], j)
    {
      if j < start {
        CoveredAppend(ranges, r, j);
      } else {
        CoveredByLast(ranges, r, j);
      }
    }
  }

  /** Closing the open run coords[start..hi] as a segment. */
  lemma EmitClearRun(coords: seq<Coord>, near: Coord -> bool, segs: seq<seq<Coord>>, ranges: seq<Range>,
                     start: nat, hi: nat)
    requires ClearLoop(coords, near, segs, ranges, start, hi)
    requires start + 2 <= hi && (hi == |coords| || near(coords[hi]))
    ensures var r := Range(start, hi);
            && SlicesOf(coords, segs + [coords[start..hi]], ranges + [r])
            && ClearInside(coords, near, ranges + [r])
            && NearBounded(coords, near, ranges + [r])
            && (forall j :: 0 <= j <= hi && j < |coords| - 1 && !near(coords[j]) && !near(coords[j + 1]) ==> Covered(ranges + [r], j))
  {
    SlicesAppend(coords, segs, ranges, start, hi);
    ClearInsideAppend(coords, near, ranges, start, hi);
    NearBoundedAppend(coords, near, ranges, start, hi);
    ClearCoversAppend(coords, near, ranges, start, hi);
  }

  /** A point away from every intersection extends the open run. */
  lemma ClearAdvance(coords: seq<Coord>, near: Coord -> bool, segs: seq<seq<Coord>>, ranges: seq<Range>,
                     start: nat, i: nat)
    requires ClearLoop(coords, near, segs, ranges, start, i) && i < |coords| && !near(coords[i])
    ensures ClearLoop(coords, near, segs, ranges, start, i + 1)
  {
  }

  /** A point near an intersection closes a run of at least two points as a segment and is dropped. */
  lemma ClearCutEmit(coords: seq<Coord>, near: Coord -> bool, segs: seq<seq<Coord>>, ranges: seq<Range>,
                     start: nat, i: nat)
    requires ClearLoop(coords, near, segs, ranges, start, i) && i < |coords| && near(coords[i])
    requires start + 2 <= i
    ensures ClearLoop(coords, near, segs + [coords[start..i]], ranges + [Range(start, i)], i + 1, i + 1)
  {
    EmitClearRun(coords, near, segs, ranges, start, i);
    var rs := ranges + [Range(start, i)];
    assert forall k :: 0 <= k < |ranges| ==> rs[k] == ranges[k];
  }

  /** A point near an intersection drops a shorter open run with it. */
  lemma ClearCutDrop(coords: seq<Coord>, near: Coord -> bool, segs: seq<seq<Coord>>, ranges: seq<Range>,
                     start: nat, i: nat)
    requires ClearLoop(coords, near, segs, ranges, start, i) && i < |coords| && near(coords[i])
    requires i < start + 2
    ensures ClearLoop(coords, near, segs, ranges, i + 1, i + 1)
  {
  }

  /** At the end of the input the open run becomes the last segment when it has two points. */
  lemma ClearFinish(coords: seq<Coord>, near: Coord -> bool, segs: seq<seq<Coord>>, ranges: seq<Range>, start: nat)
    requires ClearLoop(coords, near, segs, ranges, start, |coords|)
    ensures start + 2 <= |coords| ==>
              ClearSegments(coords, near, segs + [coords[start..]], ranges + [Range(start, |coords|)])
    ensures start + 2 > |coords| ==> ClearSegments(coords, near, segs, ranges)
  {
    if start + 2 <= |coords| {
      EmitClearRun(coords, near, segs, ranges, start, |coords|);
      assert coords[start..] == coords[start..|coords|];
    }
  }

  /**
   * `createSimpleIntersectionFreeSegments`: a point near an intersection
   * ends the open run and is dropped; runs of at least two points are kept.
   */
  method IntersectionFreeSegments(coords: seq<Coord>, intersections: seq<Coord>, distance: (Coord, Coord) -> real)
    returns (segs: seq<seq<Coord>>, ranges: seq<Range>)
    ensures ClearSegments(coords, c => Near(c, intersections, distance), segs, ranges)
  {
    var near := c => Near(c, intersections, distance);
    segs, ranges := [], [];
    var start := 0;
    var i := 0;
    while i < |coords|
      invariant ClearLoop(coords, near, segs, ranges, start, i)
    {
      if Near(coords[i], intersections, distance) {
        if i - start >= 2 {
          ClearCutEmit(coords, near, segs, ranges, start, i);
          segs, ranges := segs + [coords[start..i]], ranges + [Range(start, i)];
        } else {
          ClearCutDrop(coords, near, segs, ranges, start, i);
        }
        start := i + 1;
      } else {
        ClearAdvance(coords, near, segs, ranges, start, i);
      }
      i := i + 1;
    }
    ClearFinish(coords, near, segs, ranges, start);
    if |coords| - start >= 2 {
      segs, ranges := segs + [coords[start..]], ranges + [Range(start, |coords|)];
    }
  }

  /** No emitted point is within 8 m of an intersection point. */
  lemma ClearOfIntersections(coords: seq<Coord>, intersections: seq<Coord>, distance: (Coord, Coord) -> real,
                             segs: seq<seq<Coord>>, ranges: seq<Range>)
    requires ClearSegments(coords, c => Near(c, intersections, distance), segs, ranges)
    ensures forall k, m, j :: 0 <= k < |segs| && 0 <= m < |segs[k]| && 0 <= j < |intersections| ==>
              distance(segs[k][m], intersections[j]) >= IntersectionMetres
  {
    forall k, m | 0 <= k < |segs| && 0 <= m < |segs[k]|
      ensures !Near(segs[k][m], intersections, distance)
    {
      assert segs[k][m] == coords[ranges[k].lo + m];
    }
  }

  // ---------------------------------------------------------------------
  // Spot counts and reloading
  // ---------------------------------------------------------------------

  /** The bucket shown for a tapped street's spot count. */
  function SpotsToBucket(spots: int): (b: CountBucket)
    ensures b == FivePlus <==> spots > 5
    ensures b == TwoToFive <==> 2 < spots <= 5
    ensures b == One <==> spots <= 2
  {
    if spots > 5 then FivePlus else if spots > 2 then TwoToFive else One
  }

  function BucketRank(b: CountBucket): nat {
    match b
    case One => 0
    case TwoToFive => 1
    case FivePlus => 2
  }

  /** More spots never give a smaller bucket. */
  lemma SpotsToBucketMonotone(n: int, m: int)
    requires n <= m
    ensures BucketRank(SpotsToBucket(n)) <= BucketRank(SpotsToBucket(m))
  {
  }

  function Abs(x: real): real {
    if x < 0.0 then -x else x
  }

  const ReloadThreshold: real := 0.001

  /** Reload when nothing was loaded yet, or either coordinate moved by more than 0.001. */
  function ShouldReload(last: Option<Coord>, center: Coord): (reload: bool)
    ensures last.None? ==> reload
    ensures last.Some? ==>
              (reload <==> (center.0 - last.value.0 > ReloadThreshold || last.value.0 - center.0 > ReloadThreshold
                            || center.1 - last.value.1 > ReloadThreshold || last.value.1 - center.1 > ReloadThreshold))
  {
    last.None? || Abs(last.value.0 - center.0) > ReloadThreshold || Abs(last.value.1 - center.1) > ReloadThreshold
  }

  /** The geometry loader's memory: the centre it last loaded for. */
  datatype Loader = Loader(lastLoaded: Option<Coord>)

  /**
   * A centre change on a loaded map: when a reload is due and the loader is
   * ready, it loads for the new centre and remembers it.
   */
  function OnCenterChange(s: Loader, center: Coord, mapReady: bool, loaderReady: bool): (out: (bool, Loader))
    ensures out.0 <==> mapReady && loaderReady && ShouldReload(s.lastLoaded, center)
    ensures out.0 ==> out.1 == Loader(Some(center))
    ensures !out.0 ==> out.1 == s
  {
    if mapReady && ShouldReload(s.lastLoaded, center) && loaderReady then (true, Loader(Some(center))) else (false, s)
  }

  /** The same centre twice loads at most once. */
  lemma ReloadIdempotent(s: Loader, center: Coord)
    ensures var (_, s1) := OnCenterChange(s, center, true, true);
            !OnCenterChange(s1, center, true, true).0
  {
  }

  /** A movement within the threshold on both axes after a load does not reload. */
  lemma SmallMoveKeeps(center: Coord, moved: Coord)
    requires Abs(moved.0 - center.0) <= ReloadThreshold && Abs(moved.1 - center.1) <= ReloadThreshold
    ensures !OnCenterChange(Loader(Some(center)), moved, true, true).0
  {
  }
}
