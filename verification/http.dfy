/**
 * The request and response shapes of the HTTP handlers, and the helpers of
 * backend/src/utils/auth.ts: caller identity and response construction.
 *
 * Bodies are modelled already decoded: `Payload` is what `JSON.parse` makes
 * of the request body, with the fields the handlers read, and `Body` is the
 * value handed to `JSON.stringify` for the response.
 */
module Http {
  import opened Wrappers
  import opened Types

  datatype Claims = Claims(sub: Option<string>)
  datatype Authorizer = Authorizer(claims: Option<Claims>)

  /** The request-body fields read by the handlers; a missing body decodes as the empty object. */
  datatype RequestBody = RequestBody(
    lat: Option<real>,
    lng: Option<real>,
    countBucket: Option<string>,
    side: Option<Side>,
    reportId: Option<string>,
    status: Option<string>,
    note: Option<string>)

  const EmptyBody := RequestBody(None, None, None, None, None, None, None)

  /**
   * `Unparsable` is a body on which `JSON.parse` throws, or one that parses
   * to `null`: destructuring `null` throws too, into the same catch.
   */
  datatype Payload = Unparsable | Json(fields: RequestBody)

  datatype Event = Event(
    httpMethod: string,
    resource: string,
    authorizer: Option<Authorizer>,
    body: Payload,
    queryStringParameters: Option<map<string, string>>)

  /** The response bodies the handlers produce. */
  datatype Body =
    | NoContent
    | Error(error: string)
    | Message(message: string)
    | ReportCreated(reportId: ReportKey, geoHash6: string, side: Side, countBucket: CountBucket, confidence: real, ts: int)
    | Confirmed(confirmedId: string, status: ReportStatus, ts: int)
    | Nearby(clusters: seq<ClusterData>, total: int)
    | SessionStarted(sessionId: SessionKey, startTs: int, carLat: real, carLng: real, note: Option<string>)
    | SessionEnded(message: string, sessionId: SessionKey, endTs: int)
    | CurrentSession(sessionId: SessionKey, startTs: int, carLat: real, carLng: real, note: Option<string>)

  datatype Response = Response(statusCode: int, headers: map<string, string>, body: Body)

  /** The authenticated caller: the authorizer's `sub` claim, when there is a non-empty one. */
  function GetUserIdFromEvent(e: Event): (u: Option<string>)
    ensures u.Some? <==>
              && e.authorizer.Some?
              && e.authorizer.value.claims.Some?
              && e.authorizer.value.claims.value.sub.Some?
              && e.authorizer.value.claims.value.sub.value != ""
    ensures u.Some? ==> u.value == e.authorizer.value.claims.value.sub.value
  {
    match e.authorizer
    case None => None
    case Some(a) =>
      match a.claims
      case None => None
      case Some(c) => if TruthyText(c.sub) then c.sub else None
  }

  predicate IsAuthenticated(e: Event) {
    GetUserIdFromEvent(e).Some?
  }

  /** Authentication holds exactly when the `sub` claim is present and non-empty. */
  lemma AuthenticatedIffSub(e: Event)
    ensures IsAuthenticated(e) <==>
              && e.authorizer.Some?
              && e.authorizer.value.claims.Some?
              && TruthyText(e.authorizer.value.claims.value.sub)
  {
  }

  /** The three CORS headers every response carries. */
  function CorsHeaders(): map<string, string> {
    map[
      "Access-Control-Allow-Origin" := "*",
      "Access-Control-Allow-Methods" := "GET, POST, PUT, DELETE, OPTIONS",
      "Access-Control-Allow-Headers" := "Content-Type, Authorization"]
  }

  /** The CORS headers plus the JSON content type. */
  function DefaultHeaders(): map<string, string> {
    CorsHeaders()["Content-Type" := "application/json"]
  }

  /** A response with the default headers, overridden key by key by the caller's. */
  function CreateResponse(statusCode: int, body: Body, headers: map<string, string> := map[]): (r: Response)
    ensures r.statusCode == statusCode && r.body == body
    ensures r.headers.Keys == DefaultHeaders().Keys + headers.Keys
    ensures forall k :: k in headers ==> r.headers[k] == headers[k]
    ensures forall k :: k in DefaultHeaders() && k !in headers ==> r.headers[k] == DefaultHeaders()[k]
    ensures r.headers["Content-Type"] == (if "Content-Type" in headers then headers["Content-Type"] else "application/json")
  {
    Response(statusCode, DefaultHeaders() + headers, body)
  }

  function CreateErrorResponse(statusCode: int, message: string): (r: Response)
    ensures r == CreateResponse(statusCode, Error(message))
    ensures r.headers == DefaultHeaders()
  {
    CreateResponse(statusCode, Error(message))
  }

  /** An error response carries exactly the default headers, JSON content type and the three CORS entries. */
  lemma ErrorResponseHeaders(statusCode: int, message: string)
    ensures var r := CreateErrorResponse(statusCode, message);
            && r.headers.Keys == {"Content-Type", "Access-Control-Allow-Origin", "Access-Control-Allow-Methods", "Access-Control-Allow-Headers"}
            && r.headers["Content-Type"] == "application/json"
            && r.headers["Access-Control-Allow-Origin"] == "*"
            && r.body == Error(message)
  {
  }

  const InternalError := "Internal server error"
  const AuthRequired := "Authentication required"
}
