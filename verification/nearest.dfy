/**
 * The nearest-spot button of app/src/components/UI/NearestSpotButton.tsx:
 * the first cluster at the least distance from the user, the distance
 * label and the Spanish description of the count bucket. The great-circle
 * distance is a parameter.
 */
module Nearest {
  import opened Wrappers
  import opened Types

  datatype Location = Location(latitude: real, longitude: real)

  /** Distance in metres between two (lat, lng) points. */
  type Distance = (real, real, real, real) -> real

  function DistanceTo(distance: Distance, loc: Location, c: ClusterData): real {
    distance(loc.latitude, loc.longitude, c.lat, c.lng)
  }

  /** `i` holds the least distance, and every cluster before it is strictly farther. */
  predicate IsFirstNearest(clusters: seq<ClusterData>, loc: Location, distance: Distance, i: int) {
    && 0 <= i < |clusters|
    && (forall j :: 0 <= j < |clusters| ==> DistanceTo(distance, loc, clusters[i]) <= DistanceTo(distance, loc, clusters[j]))
    && (forall j :: 0 <= j < i ==> DistanceTo(distance, loc, clusters[i]) < DistanceTo(distance, loc, clusters[j]))
  }

  /** At most one index is the first nearest. */
  lemma FirstNearestUnique(clusters: seq<ClusterData>, loc: Location, distance: Distance, i: int, i': int)
    requires IsFirstNearest(clusters, loc, distance, i) && IsFirstNearest(clusters, loc, distance, i')
    ensures i == i'
  {
    var d := DistanceTo(distance, loc, clusters[i]);
    var d' := DistanceTo(distance, loc, clusters[i']);
    assert d <= d' && d' <= d;
  }

  /**
   * `findNearestCluster`: nothing without a location or clusters; otherwise
   * a scan that replaces the candidate only on a strictly shorter distance,
   * so ties keep the earliest cluster.
   */
  method FindNearestCluster(clusters: seq<ClusterData>, userLocation: Option<Location>, distance: Distance)
    returns (nearest: Option<ClusterData>, at: int)
    ensures nearest.None? <==> userLocation.None? || |clusters| == 0
    ensures nearest.Some? ==> IsFirstNearest(clusters, userLocation.value, distance, at) && nearest.value == clusters[at]
  {
    at := -1;
    if userLocation.None? || |clusters| == 0 {
      return None, at;
    }
    var loc := userLocation.value;
    at := 0;
    var shortest := DistanceTo(distance, loc, clusters[0]);
    var i := 0;
    while i < |clusters|
      invariant 0 <= i <= |clusters|
      invariant 0 <= at < |clusters| && at <= i
      invariant shortest == DistanceTo(distance, loc, clusters[at])
      invariant forall j :: 0 <= j < i ==> shortest <= DistanceTo(distance, loc, clusters[j])
      invariant forall j :: 0 <= j < at ==> shortest < DistanceTo(distance, loc, clusters[j])
    {
      var d := DistanceTo(distance, loc, clusters[i]);
      if d < shortest {
        shortest := d;
        at := i;
      }
      i := i + 1;
    }
    nearest := Some(clusters[at]);
  }

  // ---------------------------------------------------------------------
  // Labels
  // ---------------------------------------------------------------------

  /** `Math.round`: the nearest integer, halves upward. */
  function Round(x: real): (n: int)
    ensures x - 0.5 < n as real <= x + 0.5
  {
    (x + 0.5).Floor
  }

  function Digit(n: nat): (c: char)
    requires n < 10
    ensures '0' <= c <= '9'
  {
    (48 + n) as char
  }

  /** Decimal text of a natural number, without leading zeros. */
  function NatText(n: nat): (s: string)
    ensures |s| > 0 && forall i :: 0 <= i < |s| ==> '0' <= s[i] <= '9'
  {
    if n < 10 then [Digit(n)] else NatText(n / 10) + [Digit(n % 10)]
  }

  /** The value of a digit string. */
  function NatValue(s: string): nat
    requires forall i :: 0 <= i < |s| ==> '0' <= s[i] <= '9'
  {
    if s == [] then 0 else 10 * NatValue(s[..|s| - 1]) + (s[|s| - 1] as int - 48)
  }

  /** The decimal text reads back as the number written. */
  lemma {:induction false} NatTextRoundTrip(n: nat)
    ensures NatValue(NatText(n)) == n
  {
    if n >= 10 {
      var s := NatText(n);
      assert s[..|s| - 1] == NatText(n / 10);
      NatTextRoundTrip(n / 10);
    }
  }

  /** Template-literal text of an integer. */
  function IntText(n: int): (s: string)
    ensures n >= 0 ==> s == NatText(n)
    ensures n < 0 ==> s == "-" + NatText(-n)
  {
    if n < 0 then "-" + NatText(-n) else NatText(n)
  }

  /** `formatDistance`: whole metres under 1000, else kilometres to one decimal. */
  function FormatDistance(d: real): (s: string)
    ensures d < 1000.0 ==> s == IntText(Round(d)) + "m"
    ensures d >= 1000.0 ==> var t := Round(d / 100.0);
              t >= 10 && s == NatText(t / 10) + "." + [Digit(t % 10)] + "km"
  {
    if d < 1000.0 then IntText(Round(d)) + "m"
    else
      var tenths := Round(d / 100.0);
      NatText(tenths / 10) + "." + [Digit(tenths % 10)] + "km"
  }

  /** A label below a kilometre reads back as the rounded metres, within half a metre of the distance. */
  lemma MetresLabel(d: real)
    requires 0.0 <= d < 1000.0
    ensures var s := FormatDistance(d);
            && s[|s| - 1] == 'm' && NatValue(s[..|s| - 1]) == Round(d)
            && d - 0.5 < NatValue(s[..|s| - 1]) as real <= d + 0.5
  {
    var s := FormatDistance(d);
    assert s[..|s| - 1] == NatText(Round(d));
    NatTextRoundTrip(Round(d));
  }

  /** A label from a kilometre up gives the tenths of a kilometre, within 50 m of the distance. */
  lemma KilometresLabel(d: real)
    requires d >= 1000.0
    ensures var s := FormatDistance(d);
            var t := Round(d / 100.0);
            && s[|s| - 2..] == "km"
            && NatValue(s[..|s| - 4]) * 10 + NatValue(s[|s| - 3..|s| - 2]) == t
            && d - 50.0 < t as real * 100.0 <= d + 50.0
  {
    var s := FormatDistance(d);
    var t := Round(d / 100.0);
    assert s[..|s| - 4] == NatText(t / 10);
    assert s[|s| - 3..|s| - 2] == [Digit(t % 10)];
    NatTextRoundTrip(t / 10);
    assert NatValue([Digit(t % 10)]) == NatValue([]) * 10 + t % 10;
  }

  /** Just under a kilometre the metre branch rounds up to a four-digit label. */
  lemma JustUnderAKilometre()
    ensures FormatDistance(999.6) == "1000m"
    ensures FormatDistance(1000.0) == "1.0km"
  {
    ThousandText();
    assert Round(999.6) == 1000;
    assert Round(1000.0 / 100.0) == 10;
  }

  lemma ThousandText()
    ensures NatText(1) == "1" && NatText(1000) == "1000"
  {
    assert NatText(10) == "1" + "0";
    assert NatText(100) == NatText(10) + "0";
    assert NatText(1000) == NatText(100) + "0";
  }

  const ManySpots := "Muchos espacios"
  const SomeSpots := "Algunos espacios"
  const OneSpot := "Un espacio"
  const SpotsAvailable := "Espacios disponibles"

  /** `getSpotDescription` on the cluster's bucket text. */
  function SpotDescription(bucket: string): (s: string)
    ensures s == ManySpots <==> ParseBucket(bucket) == Some(FivePlus)
    ensures s == SomeSpots <==> ParseBucket(bucket) == Some(TwoToFive)
    ensures s == OneSpot <==> ParseBucket(bucket) == Some(One)
    ensures s == SpotsAvailable <==> ParseBucket(bucket).None?
  {
    match ParseBucket(bucket)
    case Some(FivePlus) => ManySpots
    case Some(TwoToFive) => SomeSpots
    case Some(One) => OneSpot
    case None => SpotsAvailable
  }

  /** What the button shows. */
  datatype ButtonView = Searching | Ready(cluster: ClusterData, description: string, distanceText: string)

  /** The button: searching until there is a nearest cluster, else its description and distance. */
  method NearestSpotButton(clusters: seq<ClusterData>, userLocation: Option<Location>, distance: Distance)
    returns (v: ButtonView)
    ensures v.Searching? <==> userLocation.None? || |clusters| == 0
    ensures v.Ready? ==>
              && (exists i :: IsFirstNearest(clusters, userLocation.value, distance, i) && clusters[i] == v.cluster)
              && v.description == SpotDescription(BucketText(v.cluster.countBucket))
              && v.distanceText == FormatDistance(DistanceTo(distance, userLocation.value, v.cluster))
  {
    var nearest, at := FindNearestCluster(clusters, userLocation, distance);
    if nearest.None? || userLocation.None? {
      return Searching;
    }
    var c := nearest.value;
    v := Ready(c, SpotDescription(BucketText(c.countBucket)), FormatDistance(DistanceTo(distance, userLocation.value, c)));
  }

  /** Each bucket gets its own description, never the fallback. */
  lemma DescriptionNamesBucket(b: CountBucket, b': CountBucket)
    ensures SpotDescription(BucketText(b)) != SpotsAvailable
    ensures SpotDescription(BucketText(b)) == SpotDescription(BucketText(b')) <==> b == b'
  {
    BucketRoundTrip(b);
    BucketRoundTrip(b');
  }
}
