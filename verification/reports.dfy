/**
 * The report handlers of backend/src/handlers/reports.ts: `createReport`,
 * `confirmReport` and `getNearbyReports`.
 *
 * The report and confirmation tables are maps from key to item. The clock,
 * the geohash library, the distance function, `parseFloat`, the rate-limit
 * index query and the per-cell store reads are parameters.
 */
module Reports {
  import opened Wrappers
  import opened Types
  import opened Geohash
  import opened Http
  import opened Aggregation

  /** Rate-limit window: 15 seconds, in milliseconds. */
  const RateLimitWindow: int := 15 * 1000
  /** Report lifetime: 15 minutes, in seconds. */
  const TtlDuration: int := 15 * 60
  /** Search radius when none is given, in metres. */
  const DefaultRadius: real := 1000.0

  const MissingReportFields := "Missing required fields: lat, lng, count_bucket"
  const InvalidBucket := "Invalid count_bucket. Must be: 1, 2_5, or 5_plus"
  const RateLimited := "Rate limit exceeded. Please wait before submitting another report."
  const MissingConfirmFields := "Missing required fields: reportId, status"
  const InvalidStatus := "Invalid status. Must be: still_free or taken"
  const MissingNearbyParams := "Missing required parameters: lat, lng"
  const InvalidCoordinates := "Invalid lat/lng values"

  type ReportStore = map<ReportKey, ParkingReport>
  type ConfirmationStore = map<ConfirmKey, ReportConfirmation>

  datatype Outcome<S> = Outcome(response: Response, state: S)

  /**
   * Ingestion context. `now` is the request instant in milliseconds.
   * `recentReports(user, since)` is the count returned by the rate-limit
   * query for that user's reports with `ts > since` (the query names a
   * secondary index the table never declares, so it is an oracle here).
   */
  datatype IngestEnv = IngestEnv(codec: Codec, now: nat, recentReports: (string, int) -> nat)

  /** The side a report is filed under: the caller's, else the resolver's fallback. */
  function ReportSide(c: Codec, lat: real, lng: real, side: Option<Side>): Side {
    if side.Some? then side.value else DetermineSide(c, lat, lng, None)
  }

  /** The request passes the two field checks: truthy lat, lng and bucket, and a known bucket. */
  predicate ValidReportFields(b: RequestBody) {
    && TruthyNumber(b.lat) && TruthyNumber(b.lng) && TruthyText(b.countBucket)
    && ParseBucket(b.countBucket.value).Some?
  }

  /** The caller is authenticated and the index reports something of theirs within the window. */
  predicate RateLimitHit(e: Event, env: IngestEnv) {
    var user := GetUserIdFromEvent(e);
    user.Some? && env.recentReports(user.value, env.now - RateLimitWindow) > 0
  }

  /** The item a successful `createReport` writes. */
  function NewReport(b: RequestBody, e: Event, env: IngestEnv): ParkingReport
    requires ValidReportFields(b)
  {
    var lat, lng := b.lat.value, b.lng.value;
    ParkingReport(
      env.codec.encode(lat, lng, 6),
      ReportSide(env.codec, lat, lng, b.side),
      lat, lng,
      ParseBucket(b.countBucket.value).value,
      GetUserIdFromEvent(e),
      1.0,
      env.now / 1000 + TtlDuration,
      UserSource,
      env.now)
  }

  function ReportKeyOf(r: ParkingReport): ReportKey {
    ReportKey(KeyOf(r), r.ts)
  }

  /**
   * `createReport`. Checks run in order, the first failure answering:
   * missing fields (400), unknown bucket (400), rate limit (429, only for an
   * authenticated caller). A passing request writes exactly one report and
   * answers 201. No live notification is sent.
   */
  function CreateReport(store: ReportStore, e: Event, env: IngestEnv): (out: Outcome<ReportStore>)
    ensures e.body.Unparsable? ==> out == Outcome(CreateErrorResponse(500, InternalError), store)
    ensures e.body.Json? && !(TruthyNumber(e.body.fields.lat) && TruthyNumber(e.body.fields.lng) && TruthyText(e.body.fields.countBucket)) ==>
              out == Outcome(CreateErrorResponse(400, MissingReportFields), store)
    ensures e.body.Json? && TruthyNumber(e.body.fields.lat) && TruthyNumber(e.body.fields.lng) && TruthyText(e.body.fields.countBucket)
              && ParseBucket(e.body.fields.countBucket.value).None? ==>
              out == Outcome(CreateErrorResponse(400, InvalidBucket), store)
    ensures e.body.Json? && ValidReportFields(e.body.fields) && RateLimitHit(e, env) ==>
              out == Outcome(CreateErrorResponse(429, RateLimited), store)
    ensures out.response.statusCode == 201 <==> e.body.Json? && ValidReportFields(e.body.fields) && !RateLimitHit(e, env)
    ensures out.response.statusCode != 201 ==> out.state == store
    ensures out.response.statusCode == 201 ==>
              var r := NewReport(e.body.fields, e, env);
              && out.state.Keys == store.Keys + {ReportKeyOf(r)}
              && out.state[ReportKeyOf(r)] == r
              && (forall k :: k in store && k != ReportKeyOf(r) ==> out.state[k] == store[k])
              && out.response.body == ReportCreated(ReportKeyOf(r), r.geoHash6, r.side, r.countBucket, 1.0, env.now)
  {
    match e.body
    case Unparsable => Outcome(CreateErrorResponse(500, InternalError), store)
    case Json(b) =>
      if !TruthyNumber(b.lat) || !TruthyNumber(b.lng) || !TruthyText(b.countBucket) then
        Outcome(CreateErrorResponse(400, MissingReportFields), store)
      else if ParseBucket(b.countBucket.value).None? then
        Outcome(CreateErrorResponse(400, InvalidBucket), store)
      else if RateLimitHit(e, env) then
        Outcome(CreateErrorResponse(429, RateLimited), store)
      else
        var r := NewReport(b, e, env);
        var key := ReportKey(ClusterKey(r.geoHash6, r.side), r.ts);
        Outcome(
          CreateResponse(201, ReportCreated(key, r.geoHash6, r.side, r.countBucket, 1.0, r.ts)),
          store[key := r])
  }

  /** The stored report: keyed `geoHash6#side` / `ts`, full confidence, user source, 15-minute expiry. */
  lemma CreatedReportShape(store: ReportStore, e: Event, env: IngestEnv)
    requires ValidCodec(env.codec)
    requires CreateReport(store, e, env).response.statusCode == 201
    ensures var b := e.body.fields;
            var r := NewReport(b, e, env);
            && |r.geoHash6| == 6
            && r.geoHash6 == EncodeGeohash(env.codec, b.lat.value, b.lng.value)
            && r.side == (if b.side.Some? then b.side.value else DetermineSide(env.codec, b.lat.value, b.lng.value, None))
            && BucketText(r.countBucket) == b.countBucket.value
            && r.confidence == 1.0 && r.source == UserSource
            && r.expiresAt * 1000 <= env.now + TtlDuration * 1000 < r.expiresAt * 1000 + 1000
            && r.userId == GetUserIdFromEvent(e)
            && ReportKeyOf(r).pk == ClusterKey(r.geoHash6, r.side) && ReportKeyOf(r).sk == env.now
  {
  }

  /** The missing-field check comes first: a zero latitude is "missing" even when the bucket is also wrong. */
  lemma ZeroLatitudeIsMissing(store: ReportStore, e: Event, env: IngestEnv)
    requires e.body.Json? && e.body.fields.lat == Some(0.0)
    ensures CreateReport(store, e, env) == Outcome(CreateErrorResponse(400, MissingReportFields), store)
  {
  }

  /** An unknown bucket with all fields present is rejected with 400 and writes nothing, whoever asks. */
  lemma InvalidBucketRejected(store: ReportStore, e: Event, env: IngestEnv)
    requires e.body.Json? && TruthyNumber(e.body.fields.lat) && TruthyNumber(e.body.fields.lng)
    requires TruthyText(e.body.fields.countBucket) && ParseBucket(e.body.fields.countBucket.value).None?
    ensures CreateReport(store, e, env) == Outcome(CreateErrorResponse(400, InvalidBucket), store)
  {
  }

  /** Anonymous callers skip the rate limit entirely. */
  lemma AnonymousNeverRateLimited(store: ReportStore, e: Event, env: IngestEnv)
    requires GetUserIdFromEvent(e).None?
    ensures CreateReport(store, e, env).response.statusCode != 429
    ensures e.body.Json? && ValidReportFields(e.body.fields) ==> CreateReport(store, e, env).response.statusCode == 201
  {
  }

  /** The rate-limit oracle answers from the store: a user has a recent report iff one is stored. */
  ghost predicate IndexAgrees(store: ReportStore, recent: (string, int) -> nat) {
    forall u: string, since: int {:trigger recent(u, since)} ::
      recent(u, since) > 0 <==> exists k :: k in store && store[k].userId == Some(u) && store[k].ts > since
  }

  /** Two submissions by one authenticated user less than 15 s apart: the second is refused with 429 and writes nothing. */
  lemma SecondReportRateLimited(store: ReportStore, e: Event, e': Event, env: IngestEnv, env': IngestEnv)
    requires CreateReport(store, e, env).response.statusCode == 201
    requires GetUserIdFromEvent(e).Some? && GetUserIdFromEvent(e') == GetUserIdFromEvent(e)
    requires env'.now < env.now + RateLimitWindow
    requires IndexAgrees(CreateReport(store, e, env).state, env'.recentReports)
    ensures var s1 := CreateReport(store, e, env).state;
            e'.body.Json? && ValidReportFields(e'.body.fields) ==>
              CreateReport(s1, e', env') == Outcome(CreateErrorResponse(429, RateLimited), s1)
  {
    var s1 := CreateReport(store, e, env).state;
    var r := NewReport(e.body.fields, e, env);
    var u := GetUserIdFromEvent(e).value;
    assert s1[ReportKeyOf(r)].userId == Some(u) && s1[ReportKeyOf(r)].ts > env'.now - RateLimitWindow;
    assert env'.recentReports(u, env'.now - RateLimitWindow) > 0;
  }

  // ---------------------------------------------------------------------
  // confirmReport
  // ---------------------------------------------------------------------

  /**
   * `confirmReport`: missing reportId or status (400), unknown status (400),
   * no caller (401), in that order; otherwise one confirmation is written
   * under the report id and `userId#ts`, and 200 is returned.
   */
  function ConfirmReport(store: ConfirmationStore, e: Event, now: int): (out: Outcome<ConfirmationStore>)
    ensures e.body.Unparsable? ==> out == Outcome(CreateErrorResponse(500, InternalError), store)
    ensures e.body.Json? && !(TruthyText(e.body.fields.reportId) && TruthyText(e.body.fields.status)) ==>
              out == Outcome(CreateErrorResponse(400, MissingConfirmFields), store)
    ensures e.body.Json? && TruthyText(e.body.fields.reportId) && TruthyText(e.body.fields.status)
              && ParseStatus(e.body.fields.status.value).None? ==>
              out == Outcome(CreateErrorResponse(400, InvalidStatus), store)
    ensures out.response.statusCode == 200 <==>
              && e.body.Json?
              && TruthyText(e.body.fields.reportId)
              && TruthyText(e.body.fields.status)
              && ParseStatus(e.body.fields.status.value).Some?
              && GetUserIdFromEvent(e).Some?
    ensures out.response.statusCode == 401 <==>
              && e.body.Json?
              && TruthyText(e.body.fields.reportId)
              && ParseStatus(e.body.fields.status.GetOr("")).Some?
              && GetUserIdFromEvent(e).None?
    ensures out.response.statusCode != 200 ==> out.state == store
    ensures out.response.statusCode == 200 ==>
              var id, user := e.body.fields.reportId.value, GetUserIdFromEvent(e).value;
              var k := ConfirmKey(id, user, now);
              var status := ParseStatus(e.body.fields.status.value).value;
              && out.state.Keys == store.Keys + {k}
              && out.state[k] == ReportConfirmation(id, user, status, now)
              && (forall k' :: k' in store && k' != k ==> out.state[k'] == store[k'])
              && out.response.body == Confirmed(id, status, now)
  {
    match e.body
    case Unparsable => Outcome(CreateErrorResponse(500, InternalError), store)
    case Json(b) =>
      if !TruthyText(b.reportId) || !TruthyText(b.status) then
        Outcome(CreateErrorResponse(400, MissingConfirmFields), store)
      else if ParseStatus(b.status.value).None? then
        Outcome(CreateErrorResponse(400, InvalidStatus), store)
      else
        var user := GetUserIdFromEvent(e);
        if user.None? then
          Outcome(CreateErrorResponse(401, AuthRequired), store)
        else
          var status := ParseStatus(b.status.value).value;
          var k := ConfirmKey(b.reportId.value, user.value, now);
          Outcome(
            CreateResponse(200, Confirmed(b.reportId.value, status, now)),
            store[k := ReportConfirmation(b.reportId.value, user.value, status, now)])
  }

  // ---------------------------------------------------------------------
  // getNearbyReports
  // ---------------------------------------------------------------------

  /**
   * Query context: the clock in milliseconds, the geohash library, the
   * distance in metres, `parseFloat` (None for NaN), and the store read
   * `fetch(h)` returning, in store order, the reports whose partition key
   * begins with `h`.
   */
  datatype NearbyEnv = NearbyEnv(
    codec: Codec,
    now: int,
    distance: (real, real, real, real) -> real,
    parseFloat: string -> Option<real>,
    fetch: string -> seq<ParkingReport>)

  /** The centre cell followed by its neighbours. */
  function SearchCells(c: Codec, lat: real, lng: real): (cells: seq<string>)
    ensures |cells| > 0 && cells[0] == EncodeGeohash(c, lat, lng, 6)
    ensures cells[1..] == GetNeighbors(c, cells[0])
    ensures ValidCodec(c) ==> |cells| == 9 && forall i :: 0 <= i < |cells| ==> |cells[i]| == 6
  {
    var center := EncodeGeohash(c, lat, lng, 6);
    [center] + GetNeighbors(c, center)
  }

  /** The reads of all cells, concatenated in cell order. */
  function FetchAll(fetch: string -> seq<ParkingReport>, cells: seq<string>): (rs: seq<ParkingReport>)
    ensures forall r :: r in rs <==> exists i :: 0 <= i < |cells| && r in fetch(cells[i])
  {
    if cells == [] then []
    else
      var rest := FetchAll(fetch, cells[1..]);
      assert forall i :: 1 <= i < |cells| ==> cells[i] == cells[1..][i - 1];
      fetch(cells[0]) + rest
  }

  function Param(e: Event, name: string): Option<string> {
    var ps := e.queryStringParameters.GetOr(map[]);
    if name in ps then Some(ps[name]) else None
  }

  /** `radius ? parseFloat(radius) : 1000`; a NaN parse is None. */
  function SearchRadius(e: Event, env: NearbyEnv): Option<real> {
    var r := Param(e, "radius");
    if TruthyText(r) then env.parseFloat(r.value) else Some(DefaultRadius)
  }

  /** `getNearbyReports`: parameter checks, then the nine-cell read and the fold. Nothing is written. */
  function GetNearbyReports(e: Event, env: NearbyEnv): (r: Response)
    ensures r.statusCode == 400 <==>
              !TruthyText(Param(e, "lat")) || !TruthyText(Param(e, "lng"))
              || env.parseFloat(Param(e, "lat").value).None? || env.parseFloat(Param(e, "lng").value).None?
    ensures !TruthyText(Param(e, "lat")) || !TruthyText(Param(e, "lng")) ==> r == CreateErrorResponse(400, MissingNearbyParams)
    ensures TruthyText(Param(e, "lat")) && TruthyText(Param(e, "lng"))
            && (env.parseFloat(Param(e, "lat").value).None? || env.parseFloat(Param(e, "lng").value).None?) ==>
              r == CreateErrorResponse(400, InvalidCoordinates)
    ensures r.statusCode != 400 ==> r.statusCode == 200 && r.body.Nearby? && r.body.total == |r.body.clusters|
  {
    var lat, lng := Param(e, "lat"), Param(e, "lng");
    if !TruthyText(lat) || !TruthyText(lng) then
      CreateErrorResponse(400, MissingNearbyParams)
    else
      var latitude, longitude := env.parseFloat(lat.value), env.parseFloat(lng.value);
      if latitude.None? || longitude.None? then
        CreateErrorResponse(400, InvalidCoordinates)
      else
        var q := Query(latitude.value, longitude.value, SearchRadius(e, env), env.now, env.distance);
        var clusters := Aggregate(q, FetchAll(env.fetch, SearchCells(env.codec, latitude.value, longitude.value)));
        CreateResponse(200, Nearby(clusters, |clusters|))
  }

  /**
   * A successful query answers with the fold over exactly the nine cells'
   * reads, with the default radius when none is given and no distance
   * filter when the radius text is not a number.
   */
  lemma NearbyReadsNineCells(e: Event, env: NearbyEnv)
    requires ValidCodec(env.codec)
    requires GetNearbyReports(e, env).statusCode == 200
    ensures var lat, lng := env.parseFloat(Param(e, "lat").value).value, env.parseFloat(Param(e, "lng").value).value;
            var cells := SearchCells(env.codec, lat, lng);
            var q := Query(lat, lng, SearchRadius(e, env), env.now, env.distance);
            && |cells| == 9
            && cells[0] == env.codec.encode(lat, lng, 6)
            && cells[1..] == env.codec.neighbors(cells[0])
            && GetNearbyReports(e, env).body.clusters == Aggregate(q, FetchAll(env.fetch, cells))
            && (!TruthyText(Param(e, "radius")) ==> q.radius == Some(1000.0))
            && (TruthyText(Param(e, "radius")) && env.parseFloat(Param(e, "radius").value).None? ==>
                  forall r :: WithinRadius(q, r))
  {
  }

  /** A read `fetch(h)` that agrees with the store: exactly the stored reports whose partition key begins with `h`. */
  ghost predicate FetchAgrees(store: ReportStore, fetch: string -> seq<ParkingReport>, h: string) {
    forall r :: r in fetch(h) <==> exists k :: k in store && store[k] == r && h <= k.pk
  }

  /** A report filed under its own key is selected by a prefix read on a cell of the same length exactly when the cells are equal. */
  lemma PrefixReadSelectsCell(r: ParkingReport, h: string)
    requires |r.geoHash6| == |h|
    ensures h <= ReportKeyOf(r).pk <==> h == r.geoHash6
  {
    var pk := ReportKeyOf(r).pk;
    assert pk[..|h|] == r.geoHash6;
  }

  /** With agreeing reads, a report is a candidate exactly when it is stored under a key that one of the cells prefixes. */
  lemma CandidatesFromStore(store: ReportStore, fetch: string -> seq<ParkingReport>, cells: seq<string>, r: ParkingReport)
    requires forall i :: 0 <= i < |cells| ==> FetchAgrees(store, fetch, cells[i])
    ensures r in FetchAll(fetch, cells) <==>
              exists i, k :: 0 <= i < |cells| && k in store && store[k] == r && cells[i] <= k.pk
  {
    if r in FetchAll(fetch, cells) {
      var i :| 0 <= i < |cells| && r in fetch(cells[i]);
      assert FetchAgrees(store, fetch, cells[i]);
      var k :| k in store && store[k] == r && cells[i] <= k.pk;
    }
    if exists i, k :: 0 <= i < |cells| && k in store && store[k] == r && cells[i] <= k.pk {
      var i, k :| 0 <= i < |cells| && k in store && store[k] == r && cells[i] <= k.pk;
      assert FetchAgrees(store, fetch, cells[i]);
      assert r in fetch(cells[i]);
    }
  }
}
