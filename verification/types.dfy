/**
 * The shared enumerations and records of the parking app: count buckets,
 * street sides, confirmation statuses, report sources, reports, sessions,
 * clusters and the real-time message shapes.
 */
module Types {
  import opened Wrappers

  /** Ordinal availability tier; the wire form is `'1'`, `'2_5'` or `'5_plus'`. */
  datatype CountBucket = One | TwoToFive | FivePlus

  function BucketText(b: CountBucket): string {
    match b
    case One => "1"
    case TwoToFive => "2_5"
    case FivePlus => "5_plus"
  }

  /** Reads a wire string as a bucket; only the three literal forms are accepted. */
  function ParseBucket(s: string): (r: Option<CountBucket>)
    ensures r.Some? <==> (s == "1" || s == "2_5" || s == "5_plus")
    ensures r.Some? ==> BucketText(r.value) == s
  {
    if s == "1" then Some(One)
    else if s == "2_5" then Some(TwoToFive)
    else if s == "5_plus" then Some(FivePlus)
    else None
  }

  lemma BucketRoundTrip(b: CountBucket)
    ensures ParseBucket(BucketText(b)) == Some(b)
  {
  }

  /** Which side of a street a spot lies on. */
  datatype Side = N | S | E | W

  function SideText(s: Side): string {
    match s
    case N => "N"
    case S => "S"
    case E => "E"
    case W => "W"
  }

  function ParseSide(t: string): (r: Option<Side>)
    ensures r.Some? <==> (t == "N" || t == "S" || t == "E" || t == "W")
    ensures r.Some? ==> SideText(r.value) == t
  {
    if t == "N" then Some(N)
    else if t == "S" then Some(S)
    else if t == "E" then Some(E)
    else if t == "W" then Some(W)
    else None
  }

  /** Every side is written as exactly one character, and distinct sides differ. */
  lemma SideTextShape(s: Side, s': Side)
    ensures |SideText(s)| == 1
    ensures ParseSide(SideText(s)) == Some(s)
    ensures SideText(s) == SideText(s') ==> s == s'
  {
  }

  /** The answer a user gives when confirming a report. */
  datatype ReportStatus = StillFree | Taken

  function StatusText(s: ReportStatus): string {
    match s
    case StillFree => "still_free"
    case Taken => "taken"
  }

  function ParseStatus(t: string): (r: Option<ReportStatus>)
    ensures r.Some? <==> (t == "still_free" || t == "taken")
    ensures r.Some? ==> StatusText(r.value) == t
  {
    if t == "still_free" then Some(StillFree)
    else if t == "taken" then Some(Taken)
    else None
  }

  lemma StatusRoundTrip(s: ReportStatus)
    ensures ParseStatus(StatusText(s)) == Some(s)
  {
  }

  datatype ReportSource = UserSource | SystemSource

  /**
   * A stored availability report. `ts` is the creation instant in
   * milliseconds (the source stores an ISO-8601 string of one fixed
   * format, whose string order is the chronological order); `expiresAt`
   * is in seconds.
   */
  datatype ParkingReport = ParkingReport(
    geoHash6: string,
    side: Side,
    lat: real,
    lng: real,
    countBucket: CountBucket,
    userId: Option<string>,
    confidence: real,
    expiresAt: int,
    source: ReportSource,
    ts: int)

  /** The store key of a report, `pk#sk` in the source: `pk` is `geoHash6#side`, `sk` the creation instant. */
  datatype ReportKey = ReportKey(pk: string, sk: int)

  /** The store key of a confirmation: the report id, then `userId#timestamp`. */
  datatype ConfirmKey = ConfirmKey(reportId: string, userId: string, ts: int)

  /** The store key of a parking session, `userId#start_ts` in the source. */
  datatype SessionKey = SessionKey(userId: string, startTs: int)

  datatype ReportConfirmation = ReportConfirmation(
    reportId: string,
    userId: string,
    status: ReportStatus,
    ts: int)

  /** A car-location marker; it is open while `endTs` is absent. */
  datatype ParkingSession = ParkingSession(
    userId: string,
    startTs: int,
    carLat: real,
    carLng: real,
    note: Option<string>,
    endTs: Option<int>)
  {
    predicate IsOpen() {
      endTs.None?
    }
  }

  /** The aggregated view of one `(cell, side)` group; it holds no member list. */
  datatype ClusterData = ClusterData(
    geoHash6: string,
    side: Side,
    countBucket: CountBucket,
    confidence: real,
    lastTs: int,
    lat: real,
    lng: real)

  /** A live `report_update` push. */
  datatype WebSocketMessage = WebSocketMessage(
    geoHash6: string,
    side: Side,
    countBucket: CountBucket,
    confidence: real,
    ts: int)

  datatype SubscriptionAction = Subscribe | Unsubscribe

  function ActionText(a: SubscriptionAction): string {
    match a
    case Subscribe => "subscribe"
    case Unsubscribe => "unsubscribe"
  }

  function ParseAction(t: string): (r: Option<SubscriptionAction>)
    ensures r.Some? <==> (t == "subscribe" || t == "unsubscribe")
    ensures r.Some? ==> ActionText(r.value) == t
  {
    if t == "subscribe" then Some(Subscribe)
    else if t == "unsubscribe" then Some(Unsubscribe)
    else None
  }

  /** The client-to-server subscription message. */
  datatype WebSocketSubscription = WebSocketSubscription(action: SubscriptionAction, area: string)
}
