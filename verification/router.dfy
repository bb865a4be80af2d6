/**
 * The HTTP entry point of backend/src/index.ts: CORS preflight, the
 * dispatch table on "METHOD resource", the 404 for anything else and the
 * 500 for a handler that throws; then the whole backend as one step over
 * its three tables.
 */
module Router {
  import opened Wrappers
  import opened Types
  import opened Geohash
  import opened Http
  import Reports
  import Parking

  datatype Route = CreateReportRoute | ConfirmReportRoute | NearbyRoute
                 | StartParkingRoute | EndParkingRoute | CurrentParkingRoute

  datatype Decision = Preflight | Dispatch(route: Route) | NotFound

  /** The method and resource each route is reached by. */
  function RouteMethod(r: Route): string {
    match r
    case CreateReportRoute => "POST"
    case ConfirmReportRoute => "POST"
    case NearbyRoute => "GET"
    case StartParkingRoute => "POST"
    case EndParkingRoute => "POST"
    case CurrentParkingRoute => "GET"
  }

  function RouteResource(r: Route): string {
    match r
    case CreateReportRoute => "/report"
    case ConfirmReportRoute => "/confirm"
    case NearbyRoute => "/nearby"
    case StartParkingRoute => "/park/start"
    case EndParkingRoute => "/park/end"
    case CurrentParkingRoute => "/me/park"
  }

  function RouteKey(httpMethod: string, resource: string): string {
    httpMethod + " " + resource
  }

  /** OPTIONS first, whatever the resource; then the switch on the joined key. */
  function Decide(httpMethod: string, resource: string): Decision {
    if httpMethod == "OPTIONS" then Preflight else Switch(RouteKey(httpMethod, resource))
  }

  /** The `switch` on the joined key. */
  function Switch(key: string): Decision {
    if key == "POST /report" then Dispatch(CreateReportRoute)
    else if key == "POST /confirm" then Dispatch(ConfirmReportRoute)
    else if key == "GET /nearby" then Dispatch(NearbyRoute)
    else if key == "POST /park/start" then Dispatch(StartParkingRoute)
    else if key == "POST /park/end" then Dispatch(EndParkingRoute)
    else if key == "GET /me/park" then Dispatch(CurrentParkingRoute)
    else NotFound
  }

  /** In `a + " " + b` with no space in `a` or `b`, the joining space is the only one. */
  lemma {:induction false} OnlySpace(a: string, b: string)
    requires ' ' !in a && ' ' !in b
    ensures forall i :: 0 <= i < |RouteKey(a, b)| && RouteKey(a, b)[i] == ' ' ==> i == |a|
  {
    var k := RouteKey(a, b);
    assert forall i :: 0 <= i < |a| ==> k[i] == a[i];
    assert forall i :: |a| < i < |k| ==> k[i] == b[i - |a| - 1];
  }

  /** Joining with a space is injective when the second pair holds no space. */
  lemma {:induction false} RouteKeySplit(m: string, r: string, m': string, r': string)
    requires ' ' !in m' && ' ' !in r'
    ensures RouteKey(m, r) == RouteKey(m', r') <==> m == m' && r == r'
  {
    var k, k' := RouteKey(m, r), RouteKey(m', r');
    if k == k' {
      OnlySpace(m', r');
      assert k[|m|] == ' ';
      assert |m| == |m'|;
      assert m == k[..|m|] == k'[..|m'|] == m';
      assert r == k[|m| + 1..] == k'[|m'| + 1..] == r';
    }
  }

  /** The joined key a route is dispatched on. */
  function KeyOfRoute(rt: Route): string {
    RouteKey(RouteMethod(rt), RouteResource(rt))
  }

  /** A request is dispatched to `rt` exactly when it is not a preflight and its joined key is `rt`'s. */
  lemma DispatchKey(httpMethod: string, resource: string, rt: Route)
    ensures Decide(httpMethod, resource) == Dispatch(rt) <==>
            httpMethod != "OPTIONS" && RouteKey(httpMethod, resource) == KeyOfRoute(rt)
  {
    SwitchKey(RouteKey(httpMethod, resource), rt);
  }

  /** The switch picks `rt` exactly for `rt`'s key. */
  lemma SwitchKey(key: string, rt: Route)
    ensures Switch(key) == Dispatch(rt) <==> key == KeyOfRoute(rt)
  {
    SwitchOwnKey(rt);
    if Switch(key) == Dispatch(rt) {
      SwitchPicked(key);
    }
  }

  /** The six joined keys. */
  lemma RouteKeys()
    ensures KeyOfRoute(CreateReportRoute) == "POST /report"
    ensures KeyOfRoute(ConfirmReportRoute) == "POST /confirm"
    ensures KeyOfRoute(NearbyRoute) == "GET /nearby"
    ensures KeyOfRoute(StartParkingRoute) == "POST /park/start"
    ensures KeyOfRoute(EndParkingRoute) == "POST /park/end"
    ensures KeyOfRoute(CurrentParkingRoute) == "GET /me/park"
  {
  }

  /** Each route's own key reaches it. */
  lemma SwitchOwnKey(rt: Route)
    ensures Switch(KeyOfRoute(rt)) == Dispatch(rt)
  {
    RouteKeys();
  }

  /** A key the switch dispatches is the key of the route it picks. */
  lemma SwitchPicked(key: string)
    requires Switch(key).Dispatch?
    ensures key == KeyOfRoute(Switch(key).route)
  {
    RouteKeys();
  }

  /** A method and resource reach a handler exactly when they are that handler's pair. */
  lemma {:induction false} DispatchExactly(httpMethod: string, resource: string, route: Route)
    ensures Decide(httpMethod, resource) == Dispatch(route) <==>
            httpMethod == RouteMethod(route) && resource == RouteResource(route)
  {
    DispatchKey(httpMethod, resource, route);
    RouteKeySplit(httpMethod, resource, RouteMethod(route), RouteResource(route));
    assert RouteMethod(route) != "OPTIONS";
  }

  /** The preflight answer: the three CORS headers, no content type, empty body. */
  function PreflightResponse(): (r: Response)
    ensures r.statusCode == 200 && r.body == NoContent
    ensures r.headers == CorsHeaders() && "Content-Type" !in r.headers
  {
    Response(200, CorsHeaders(), NoContent)
  }

  function NotFoundMessage(httpMethod: string, resource: string): string {
    "Route not found: " + RouteKey(httpMethod, resource)
  }

  /** What a handler did: answered, or threw past its own catch. */
  datatype HandlerResult = Returned(response: Response) | Threw

  /** The entry point with the handlers as a parameter. */
  function Handle(httpMethod: string, resource: string, run: Route -> HandlerResult): (r: Response)
    ensures httpMethod == "OPTIONS" ==> r == PreflightResponse()
    ensures Decide(httpMethod, resource).NotFound? ==>
              r == CreateErrorResponse(404, NotFoundMessage(httpMethod, resource))
    ensures Decide(httpMethod, resource).Dispatch? ==>
              r == (match run(Decide(httpMethod, resource).route)
                    case Returned(resp) => resp
                    case Threw => CreateErrorResponse(500, InternalError))
  {
    match Decide(httpMethod, resource)
    case Preflight => PreflightResponse()
    case NotFound => CreateErrorResponse(404, NotFoundMessage(httpMethod, resource))
    case Dispatch(route) =>
      match run(route)
      case Returned(resp) => resp
      case Threw => CreateErrorResponse(500, InternalError)
  }

  // ---------------------------------------------------------------------
  // The backend as one step
  // ---------------------------------------------------------------------

  datatype Backend = Backend(
    reports: Reports.ReportStore,
    confirmations: Reports.ConfirmationStore,
    sessions: Parking.SessionStore)

  /** Everything a request sees from outside: one clock reading and the library and store oracles. */
  datatype Env = Env(
    codec: Codec,
    now: nat,
    recentReports: (string, int) -> nat,
    distance: (real, real, real, real) -> real,
    parseFloat: string -> Option<real>,
    fetch: string -> seq<ParkingReport>)

  datatype Step = Step(response: Response, backend: Backend)

  /** The six handlers, each on its own table. Each catches its own errors, so none throws here. */
  function Run(b: Backend, e: Event, env: Env, route: Route): (s: Step)
    ensures s.backend.reports != b.reports ==> route == CreateReportRoute
    ensures s.backend.confirmations != b.confirmations ==> route == ConfirmReportRoute
    ensures s.backend.sessions != b.sessions ==> route in {StartParkingRoute, EndParkingRoute}
  {
    match route
    case CreateReportRoute =>
      var out := Reports.CreateReport(b.reports, e, Reports.IngestEnv(env.codec, env.now, env.recentReports));
      Step(out.response, b.(reports := out.state))
    case ConfirmReportRoute =>
      var out := Reports.ConfirmReport(b.confirmations, e, env.now);
      Step(out.response, b.(confirmations := out.state))
    case NearbyRoute =>
      Step(Reports.GetNearbyReports(e, Reports.NearbyEnv(env.codec, env.now, env.distance, env.parseFloat, env.fetch)), b)
    case StartParkingRoute =>
      var out := Parking.StartParkingSession(b.sessions, e, env.now);
      Step(out.response, b.(sessions := out.state))
    case EndParkingRoute =>
      var out := Parking.EndParkingSession(b.sessions, e, env.now);
      Step(out.response, b.(sessions := out.state))
    case CurrentParkingRoute =>
      Step(Parking.GetCurrentParkingSession(b.sessions, e), b)
  }

  /** One HTTP request against the whole backend; only the routed handler's table can change. */
  function Serve(b: Backend, e: Event, env: Env): (s: Step)
    ensures e.httpMethod == "OPTIONS" ==> s == Step(PreflightResponse(), b)
    ensures Decide(e.httpMethod, e.resource).NotFound? ==>
              s == Step(CreateErrorResponse(404, NotFoundMessage(e.httpMethod, e.resource)), b)
    ensures Decide(e.httpMethod, e.resource).Dispatch? ==> s == Run(b, e, env, Decide(e.httpMethod, e.resource).route)
    ensures s.backend.reports != b.reports ==> e.httpMethod == "POST" && e.resource == "/report"
    ensures s.backend.confirmations != b.confirmations ==> e.httpMethod == "POST" && e.resource == "/confirm"
    ensures s.backend.sessions != b.sessions ==>
              e.httpMethod == "POST" && (e.resource == "/park/start" || e.resource == "/park/end")
  {
    match Decide(e.httpMethod, e.resource)
    case Preflight => Step(PreflightResponse(), b)
    case NotFound => Step(CreateErrorResponse(404, NotFoundMessage(e.httpMethod, e.resource)), b)
    case Dispatch(route) =>
      DispatchExactly(e.httpMethod, e.resource, route);
      Run(b, e, env, route)
  }

  /** Serving a request is the entry point with handlers that always return. */
  lemma ServeIsHandle(b: Backend, e: Event, env: Env)
    ensures Serve(b, e, env).response == Handle(e.httpMethod, e.resource, route => Returned(Run(b, e, env, route).response))
  {
  }

  /** Reads never write: a GET leaves every table as it was. */
  lemma GetsDoNotWrite(b: Backend, e: Event, env: Env)
    requires e.httpMethod == "GET"
    ensures Serve(b, e, env).backend == b
  {
  }

  /** A preflight is answered the same way whatever its resource and whatever the tables hold. */
  lemma PreflightIgnoresEverything(b: Backend, b': Backend, e: Event, e': Event, env: Env, env': Env)
    requires e.httpMethod == "OPTIONS" && e'.httpMethod == "OPTIONS"
    ensures Serve(b, e, env) == Step(PreflightResponse(), b)
    ensures Serve(b, e, env).response == Serve(b', e', env').response
  {
  }

  /** A method outside the six pairs is refused with 404 naming the method and resource. */
  lemma UnknownRouteIs404(b: Backend, e: Event, env: Env)
    requires e.httpMethod == "PUT" && e.resource == "/report"
    ensures Serve(b, e, env).response.statusCode == 404
    ensures Serve(b, e, env).response.body == Error("Route not found: PUT /report")
  {
    PutIsNoRoute();
  }

  lemma PutIsNoRoute()
    ensures Decide("PUT", "/report") == NotFound
    ensures NotFoundMessage("PUT", "/report") == "Route not found: PUT /report"
  {
    assert RouteKey("PUT", "/report") == "PUT /report";
  }
}
