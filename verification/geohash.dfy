/**
 * Geohash helpers and street-side resolution (packages/shared/src/geohash.ts).
 *
 * The geohash library itself (encode, decode, neighbours, bounding box) is
 * not part of this model: its operations are the fields of a `Codec`, and
 * `ValidCodec` states the only facts assumed of them, the output length of
 * the encoder and the shape of the neighbour list.
 */
module Geohash {
  import opened Types
  import opened Wrappers

  /** The library's bounding-box tuple is ordered `[minLat, minLng, maxLat, maxLng]`. */
  type BboxTuple = (real, real, real, real)

  datatype Codec = Codec(
    encode: (real, real, nat) -> string,
    decode: string -> (real, real),
    neighbors: string -> seq<string>,
    decodeBbox: string -> BboxTuple)

  /** The assumed library contracts: a precision-p hash has p characters; there are 8 neighbours of the input's length. */
  ghost predicate ValidCodec(c: Codec) {
    && (forall lat: real, lng: real, p: nat :: |c.encode(lat, lng, p)| == p)
    && (forall h: string :: |c.neighbors(h)| == 8)
    && (forall h: string, i: int :: 0 <= i < |c.neighbors(h)| ==> |c.neighbors(h)[i]| == |h|)
  }

  /** Report grouping uses precision 6 unless told otherwise. */
  const DefaultPrecision: nat := 6
  /** Real-time subscriptions use the coarser precision 5. */
  const AreaPrecision: nat := 5
  /** The side fallback reads a precision-8 hash. */
  const SidePrecision: nat := 8

  function EncodeGeohash(c: Codec, lat: real, lng: real, precision: nat := DefaultPrecision): (h: string)
    ensures ValidCodec(c) ==> |h| == precision
  {
    c.encode(lat, lng, precision)
  }

  /** The area a point belongs to for live updates: its precision-5 cell. */
  function GetAreaHash(c: Codec, lat: real, lng: real): (h: string)
    ensures ValidCodec(c) ==> |h| == AreaPrecision
    ensures h == c.encode(lat, lng, 5)
  {
    EncodeGeohash(c, lat, lng, AreaPrecision)
  }

  lemma DefaultPrecisionIsSix(c: Codec, lat: real, lng: real)
    requires ValidCodec(c)
    ensures EncodeGeohash(c, lat, lng) == c.encode(lat, lng, 6)
    ensures |EncodeGeohash(c, lat, lng)| == 6
  {
  }

  datatype Point = Point(lat: real, lng: real)

  function DecodeGeohash(c: Codec, hash: string): Point {
    Point(c.decode(hash).0, c.decode(hash).1)
  }

  function GetNeighbors(c: Codec, hash: string): (ns: seq<string>)
    ensures ValidCodec(c) ==> |ns| == 8
    ensures ValidCodec(c) ==> forall i :: 0 <= i < |ns| ==> |ns[i]| == |hash|
  {
    c.neighbors(hash)
  }

  datatype BoundingBox = BoundingBox(minLat: real, maxLat: real, minLng: real, maxLng: real)

  function GetBoundingBox(c: Codec, hash: string): BoundingBox {
    var t := c.decodeBbox(hash);
    BoundingBox(t.0, t.2, t.1, t.3)
  }

  /** The library's tuple order, the inverse of the renaming done by GetBoundingBox. */
  function LibraryOrder(b: BoundingBox): BboxTuple {
    (b.minLat, b.minLng, b.maxLat, b.maxLng)
  }

  /** GetBoundingBox loses nothing: the named fields are exactly the library tuple, re-indexed. */
  lemma BoundingBoxRenaming(c: Codec, hash: string)
    ensures LibraryOrder(GetBoundingBox(c, hash)) == c.decodeBbox(hash)
    ensures GetBoundingBox(c, hash).minLat == c.decodeBbox(hash).0
    ensures GetBoundingBox(c, hash).minLng == c.decodeBbox(hash).1
    ensures GetBoundingBox(c, hash).maxLat == c.decodeBbox(hash).2
    ensures GetBoundingBox(c, hash).maxLng == c.decodeBbox(hash).3
  {
  }

  // ---------------------------------------------------------------------
  // Side resolution
  // ---------------------------------------------------------------------

  /** JavaScript's `Math.trunc`. */
  function Trunc(x: real): int {
    if x >= 0.0 then x.Floor else -((-x).Floor)
  }

  /** JavaScript's `a % 360` on numbers: the remainder of truncated division, carrying the dividend's sign. */
  function JsRem360(a: real): (r: real)
    ensures -360.0 < r < 360.0
    ensures a >= 0.0 ==> r >= 0.0
    ensures a <= 0.0 ==> r <= 0.0
  {
    a - 360.0 * Trunc(a / 360.0) as real
  }

  /** The mathematical angle class of `a` in [0, 360): the reference the source's double remainder computes. */
  function CanonicalAngle(a: real): real {
    a - 360.0 * (a / 360.0).Floor as real
  }

  lemma FloorShift(x: real, k: int)
    ensures (x + k as real).Floor == x.Floor + k
  {
    var f := x.Floor;
    assert (f + k) as real <= x + k as real < (f + k) as real + 1.0;
  }

  /** `((a % 360) + 360) % 360`, the source's normalisation of a street angle. */
  function NormalizeAngle(a: real): (r: real)
    ensures 0.0 <= r < 360.0
    ensures r == CanonicalAngle(a)
  {
    var r1 := JsRem360(a);
    var x := r1 + 360.0;
    var t := Trunc(a / 360.0);
    assert x / 360.0 == a / 360.0 + (1 - t) as real;
    FloorShift(a / 360.0, 1 - t);
    JsRem360(x)
  }

  /** The quadrant table applied to a normalised angle. */
  function QuadrantSide(x: real): Side {
    if x >= 315.0 || x < 45.0 then N
    else if x >= 45.0 && x < 135.0 then E
    else if x >= 135.0 && x < 225.0 then S
    else W
  }

  /** The order the fallback indexes: character code mod 4 gives N, E, S, W. */
  function SideOfCode(code: int): Side {
    if code % 4 == 0 then N
    else if code % 4 == 1 then E
    else if code % 4 == 2 then S
    else W
  }

  /**
   * determineSide: with a street angle, the quadrant of the normalised angle;
   * without one, a placeholder keyed on the last character of the point's
   * precision-8 hash. An empty hash gives the character code NaN, which
   * matches none of the residues and falls through to W.
   */
  function DetermineSide(c: Codec, lat: real, lng: real, streetAngle: Option<real>): Side {
    match streetAngle
    case Some(a) => QuadrantSide(NormalizeAngle(a))
    case None =>
      var h := c.encode(lat, lng, SidePrecision);
      if |h| == 0 then W else SideOfCode(h[|h| - 1] as int)
  }

  /** The quadrant table on the canonical angle, with both directions of each band. */
  lemma AngleBands(c: Codec, lat: real, lng: real, a: real)
    ensures var x := CanonicalAngle(a);
            var s := DetermineSide(c, lat, lng, Some(a));
            && (s == N <==> (315.0 <= x || x < 45.0))
            && (s == E <==> (45.0 <= x < 135.0))
            && (s == S <==> (135.0 <= x < 225.0))
            && (s == W <==> (225.0 <= x < 315.0))
  {
  }

  /** Angles that differ by any whole number of turns, negative ones included, give the same side. */
  lemma AnglePeriodic(c: Codec, lat: real, lng: real, a: real, k: int)
    ensures DetermineSide(c, lat, lng, Some(a + 360.0 * k as real)) == DetermineSide(c, lat, lng, Some(a))
  {
    assert (a + 360.0 * k as real) / 360.0 == a / 360.0 + k as real;
    FloorShift(a / 360.0, k);
  }

  /** With an angle given, the point plays no part. */
  lemma AngleIgnoresPoint(c: Codec, c': Codec, lat: real, lng: real, lat': real, lng': real, a: real)
    ensures DetermineSide(c, lat, lng, Some(a)) == DetermineSide(c', lat', lng', Some(a))
  {
  }

  /** The cardinal angles and the band boundaries: each boundary belongs to the band it opens. */
  lemma CardinalAngles(c: Codec, lat: real, lng: real)
    ensures DetermineSide(c, lat, lng, Some(0.0)) == N
    ensures DetermineSide(c, lat, lng, Some(90.0)) == E
    ensures DetermineSide(c, lat, lng, Some(180.0)) == S
    ensures DetermineSide(c, lat, lng, Some(270.0)) == W
    ensures DetermineSide(c, lat, lng, Some(45.0)) == E
    ensures DetermineSide(c, lat, lng, Some(135.0)) == S
    ensures DetermineSide(c, lat, lng, Some(225.0)) == W
    ensures DetermineSide(c, lat, lng, Some(315.0)) == N
    ensures DetermineSide(c, lat, lng, Some(-90.0)) == W
    ensures DetermineSide(c, lat, lng, Some(360.0)) == N
  {
  }

  /** Without an angle, the side is [N, E, S, W] at the last hash character's code mod 4. */
  lemma FallbackSide(c: Codec, lat: real, lng: real)
    requires ValidCodec(c)
    ensures var h := c.encode(lat, lng, 8);
            |h| == 8 &&
            DetermineSide(c, lat, lng, None) == [N, E, S, W][(h[7] as int) % 4]
  {
  }
}
