# vapi street-parking core, modelled in Dafny

vapi is a street-parking app. Drivers report free spots on a street side and the backend groups live reports into clusters per geohash cell and side. Drivers can also record where they parked, and subscribed clients receive report updates over a WebSocket. This project models the sequential decision and transformation rules of that system as pure functions over immutable data and proves properties about them:

- the shared types and geohash helpers, including street-side resolution;
- the HTTP handlers for reports, confirmations, nearby clusters and parking sessions, over map-valued stores;
- the authentication and response helpers, and the router that dispatches on `METHOD resource`;
- the WebSocket subscription registry, with publish fan-out and the eviction rule for a send that fails with status 410 (whether the SDK client ever reports that status this way is outside the model; see "Left out");
- the client helpers: nearest-cluster choice and its labels, navigation deep links and their fallback, polyline segmentation, the map reload rule, and the live-feed buffer.

Geohash encoding, distances, the clock, number parsing, store reads and network sends are parameters (oracles). Timestamps are integers in milliseconds. One request reads the clock once.

Modules, one per file: `Wrappers`, `Types`, `Geohash`, `Http`, `Aggregation`, `Reports`, `Parking`, `Router`, `WebSocket`, `Nearest`, `Navigation`, `Segments`, `LiveFeed`.

## Model

| member | source | states |
|---|---|---|
| Types.ParseBucket | packages/shared/src/types.ts:1 | a bucket is accepted exactly for the texts '1', '2_5' and '5_plus', and prints back to the same text |
| Types.BucketRoundTrip | packages/shared/src/types.ts:1 | every bucket prints to a text that parses back to that bucket |
| Types.ParseSide | packages/shared/src/types.ts:3 | a side is accepted exactly for N, S, E and W |
| Types.SideTextShape | packages/shared/src/types.ts:3 | a side prints as one character that parses back, and different sides print differently |
| Types.ParseStatus | packages/shared/src/types.ts:5 | a status is accepted exactly for 'still_free' and 'taken' |
| Types.StatusRoundTrip | packages/shared/src/types.ts:5 | every status prints to a text that parses back to it |
| Types.ParseAction | packages/shared/src/types.ts:81-84 | a subscription action is exactly 'subscribe' or 'unsubscribe' |
| Geohash.EncodeGeohash | packages/shared/src/geohash.ts:4-6 | under the assumed encoder contract, the hash has the requested precision |
| Geohash.DefaultPrecisionIsSix | packages/shared/src/geohash.ts:4 | leaving out the precision encodes at precision 6, giving a 6-character hash |
| Geohash.GetAreaHash | packages/shared/src/geohash.ts:52-54 | the area hash is the precision-5 encoding, so it has 5 characters |
| Geohash.GetNeighbors | packages/shared/src/geohash.ts:13-15 | under the assumed contract, there are 8 neighbours, each as long as the input hash |
| Geohash.BoundingBoxRenaming | packages/shared/src/geohash.ts:37-50 | the box is the library tuple re-indexed as minLat=[0], minLng=[1], maxLat=[2], maxLng=[3], and nothing is lost |
| Geohash.JsRem360 | packages/shared/src/geohash.ts:19 | JavaScript's `% 360` lies strictly between -360 and 360 and keeps the dividend's sign |
| Geohash.NormalizeAngle | packages/shared/src/geohash.ts:19 | `((a % 360) + 360) % 360` lands in [0, 360) and equals the mathematical angle modulo 360, negatives included |
| Geohash.AngleBands | packages/shared/src/geohash.ts:21-24 | with an angle, the side is N exactly on [315,360)∪[0,45), E on [45,135), S on [135,225) and W on [225,315) |
| Geohash.AnglePeriodic | packages/shared/src/geohash.ts:19-24 | angles that differ by any whole multiple of 360 give the same side |
| Geohash.AngleIgnoresPoint | packages/shared/src/geohash.ts:18-25 | with an angle given, the side depends on neither the position nor the encoder |
| Geohash.CardinalAngles | packages/shared/src/geohash.ts:18-25 | 0, 90, 180 and 270 give N, E, S and W; 45, 135, 225 and 315 give E, S, W and N; -90 gives W and 360 gives N |
| Geohash.FallbackSide | packages/shared/src/geohash.ts:27-34 | without an angle, the side is [N,E,S,W] indexed by the last character code of the precision-8 hash modulo 4 |
| Http.GetUserIdFromEvent | backend/src/utils/auth.ts:3-6 | a user id exists exactly when authorizer, claims and a non-empty sub are all present, and it is that sub |
| Http.AuthenticatedIffSub | backend/src/utils/auth.ts:8-10 | a caller is authenticated exactly when the sub claim is present and non-empty |
| Http.CreateResponse | backend/src/utils/auth.ts:12-24 | the headers are the JSON content type and three CORS entries, with caller headers winning on a key clash; status and body are kept |
| Http.CreateErrorResponse | backend/src/utils/auth.ts:26-28 | an error response is `createResponse(status, {error: message})` and carries exactly the default headers |
| Http.ErrorResponseHeaders | backend/src/utils/auth.ts:12-28 | an error response has exactly the four default header keys, a JSON content type and origin '*' |
| Aggregation.ClusterKeyInjective | backend/src/handlers/reports.ts:174 | two reports share the key `geoHash6#side` exactly when both the cell and the side are equal |
| Aggregation.Surviving | backend/src/handlers/reports.ts:167-172 | a candidate survives exactly when it is not expired (`expiresAt*1000 < now` is false) and it is not beyond the radius |
| Aggregation.MembersOf | backend/src/handlers/reports.ts:189 | a key's members are exactly the surviving reports with that key |
| Aggregation.FirstLatestUnique | backend/src/handlers/reports.ts:192 | at most one index is the first to hold the greatest timestamp |
| Aggregation.LatestIndex | backend/src/handlers/reports.ts:192-195 | the index found is the first member with the greatest timestamp, as the strict `>` update keeps |
| Aggregation.Round2 | backend/src/handlers/reports.ts:207 | the result is a whole number of hundredths and the nearest one to the value, a value exactly halfway rounding up, so it moves the value by at most half a hundredth |
| Aggregation.IndexOfKey | backend/src/handlers/reports.ts:176 | the lookup finds the first group with the key, or reports its absence |
| Aggregation.AddReportKeepsInv | backend/src/handlers/reports.ts:174-195 | one step of the fold keeps keys distinct and keeps each group equal to its key's members, first report and latest report |
| Aggregation.GroupsInvariant | backend/src/handlers/reports.ts:167-196 | after the whole fold, every group agrees with the reference definitions and every surviving report's key has a group |
| Aggregation.FirstPosAppend | backend/src/handlers/reports.ts:175-186 | appending a report leaves the first position of a key that already occurs unchanged, and a key seen for the first time is first found at the new report |
| Aggregation.AddReportKeepsOrder | backend/src/handlers/reports.ts:175-186 | one loop step keeps the groups in the order their keys first appear: an existing key keeps its place, and a new key's group goes last |
| Aggregation.GroupsOrderInvariant | backend/src/handlers/reports.ts:167-196 | after the whole fold, the groups are in the order their keys first appear among the surviving reports, which is the `Map`'s insertion order |
| Aggregation.AggregateSpec | backend/src/handlers/reports.ts:165-210 | there is one cluster per distinct key, and every contributing report's key has one; lat/lng come from the key's first member; bucket and last_ts come from the first latest member; confidence is the members' mean rounded to two decimals; clusters come in the order their keys first appear among the surviving reports, the order `Array.from(clusters.values())` yields |
| Aggregation.ExcludedReportsNeverCount | backend/src/handlers/reports.ts:169-172 | an expired report, or one beyond the radius, is a member of no cluster |
| Aggregation.TwoReportsOneCluster | backend/src/handlers/reports.ts:176-207 | two live reports with one key give one cluster: confidences 1.0 and 0.5 average to 0.75; the newer report gives the bucket and time; the position stays the first report's |
| Reports.CreateReport | backend/src/handlers/reports.ts:10-85 | an unparsable body gives 500 and a falsy lat, lng or bucket gives 400, neither writing. With those present, an unknown bucket gives 400 before the rate limit is consulted, and a rate-limited caller with valid fields gets 429; none of these writes. The answer is 201 exactly when the bucket is one of the three and the caller is anonymous or has no report in the last 15 s. Only then is exactly one item written, under key (geoHash6#side, ts); every other key is untouched |
| Reports.CreatedReportShape | backend/src/handlers/reports.ts:43-79 | a created report has a 6-character cell and the explicit side, else the determined one; confidence is 1.0 and source 'user'; expiresAt is floor(now/1000)+900; the key is geoHash6#side and ts |
| Reports.ZeroLatitudeIsMissing | backend/src/handlers/reports.ts:15-17 | latitude 0 counts as missing: 400 and nothing written |
| Reports.InvalidBucketRejected | backend/src/handlers/reports.ts:19-21 | any truthy bucket outside the three values, with lat and lng present, gives 400 and nothing is written, whoever the caller is |
| Reports.AnonymousNeverRateLimited | backend/src/handlers/reports.ts:23-41 | an anonymous caller is never refused with 429, and valid fields are always stored |
| Reports.SecondReportRateLimited | backend/src/handlers/reports.ts:26-41 | when the user index reflects the store, a second valid report by the same user less than 15 s later gets 429 and writes nothing |
| Reports.ConfirmReport | backend/src/handlers/reports.ts:87-128 | an unparsable body gives 500. A falsy reportId or status gives 400 "Missing required fields", and otherwise an unknown status gives 400 "Invalid status". The answer is 200 exactly when reportId and status are present, the status is valid and a user is known; it is 401 exactly when only the user is missing. Only on 200 is one confirmation written, under (reportId, userId, ts) |
| Reports.SearchCells | backend/src/handlers/reports.ts:146-148 | the cells read are the centre precision-6 cell followed by its neighbours; under the encoder contract that is 9 cells of 6 characters |
| Reports.FetchAll | backend/src/handlers/reports.ts:153-161 | a report is a candidate exactly when some queried cell's read returns it |
| Reports.GetNearbyReports | backend/src/handlers/reports.ts:130-221 | a missing or empty lat or lng gives 400 "Missing required parameters: lat, lng"; both present but one not a number gives 400 "Invalid lat/lng values"; otherwise 200 with the clusters and total equal to their number |
| Reports.NearbyReadsNineCells | backend/src/handlers/reports.ts:140-215 | a successful query folds exactly the nine cells' reads; the radius defaults to 1000, and a radius that is not a number filters nothing |
| Reports.PrefixReadSelectsCell | backend/src/handlers/reports.ts:155 | a prefix read on a 6-character cell selects a report's key exactly when the report is in that cell |
| Reports.CandidatesFromStore | backend/src/handlers/reports.ts:153-161 | when every read agrees with the store, the candidates are exactly the stored reports whose partition key starts with a queried cell |
| Parking.NewestKey | backend/src/handlers/parking.ts:119-127 | the newest-first query's first item is the user's session with the greatest start, and there is none only when the user has no sessions |
| Parking.CurrentOpenKey | backend/src/handlers/parking.ts:119-131 | the current session is the user's newest session if it is open; there is none exactly when no session is both newest and open |
| Parking.NewestOpenIsCurrent | backend/src/handlers/parking.ts:119-131 | a newest open session is always the one the query returns |
| Parking.Close | backend/src/handlers/parking.ts:136-140 | closing rewrites the session unchanged except for the added end time |
| Parking.EndExistingSession | backend/src/handlers/parking.ts:117-146 | there is nothing to end exactly when there is no current session, and then nothing changes; otherwise only that session is closed, and its id and end time are returned |
| Parking.StartParkingSession | backend/src/handlers/parking.ts:6-51 | a falsy lat or lng gives 400 before the 401 for no user, and neither writes. The answer is 201 exactly when lat and lng are truthy and a user is known. On 201 the current session is closed first, then an open session keyed (user, now) is written; every other key is kept |
| Parking.EndParkingSession | backend/src/handlers/parking.ts:53-76 | no user gives 401 and no current session gives 404, neither writing; otherwise 200, and the only change is closing the current session |
| Parking.GetCurrentParkingSession | backend/src/handlers/parking.ts:78-115 | no user gives 401; no current session gives 404 with a message body; otherwise 200 with that session's fields; nothing is written |
| Parking.OpenIsNewestMeansOne | backend/src/handlers/parking.ts:20-37 | under the invariant a user has at most one open session, and the query finds it |
| Parking.StartKeepsOpenIsNewest | backend/src/handlers/parking.ts:20-37 | when the clock is later than every earlier start, starting keeps "an open session is the newest", and the new session is the only open one |
| Parking.EndLeavesNoneOpen | backend/src/handlers/parking.ts:53-70 | under the invariant, ending leaves the user with no open session |
| Parking.LimitBeforeFilterHidesOlderOpen | backend/src/handlers/parking.ts:85-99 | an open session older than a closed one is not found, because the limit applies before the filter |
| Router.RouteKeySplit | backend/src/index.ts:26 | joining method and resource with a space is injective for space-free route names |
| Router.DispatchExactly | backend/src/index.ts:26-43 | a request reaches a handler exactly when its method and resource are that handler's pair |
| Router.PreflightResponse | backend/src/index.ts:13-23 | the preflight answer is 200 with the three CORS headers, no content type and an empty body |
| Router.Handle | backend/src/index.ts:6-53 | OPTIONS is answered first, for any resource; an unknown pair gives 404 naming method and resource; a handler that throws gives 500 |
| Router.Run | backend/src/index.ts:27-43 | each route changes at most its own table |
| Router.Serve | backend/src/index.ts:6-53 | one request over the three tables: preflight and 404 change nothing, and each table changes only under its own POST route |
| Router.ServeIsHandle | backend/src/index.ts:6-53 | serving a request answers as the entry point with handlers that always return |
| Router.GetsDoNotWrite | backend/src/index.ts:33-43 | a GET leaves every table as it was |
| Router.PreflightIgnoresEverything | backend/src/index.ts:13-23 | a preflight answer depends on neither the resource nor the state, and changes nothing |
| Router.UnknownRouteIs404 | backend/src/index.ts:45-46 | PUT /report is refused with 404 "Route not found: PUT /report" |
| WebSocket.SendMessage | backend/src/websocket.ts:130-146 | a failed send with status 410 removes that connection; any other outcome leaves the registry unchanged |
| WebSocket.HandleConnect | backend/src/websocket.ts:39-43 | connecting registers the id with no area, resetting a previous subscription; others are untouched |
| WebSocket.HandleDisconnect | backend/src/websocket.ts:45-49 | disconnecting removes only that connection |
| WebSocket.HandleSubscribe | backend/src/websocket.ts:75-95 | no area gives 400 and no change. Otherwise the answer is 200; a known connection takes the area, an unknown one is not added, and a 410 on the confirmation evicts it |
| WebSocket.HandleUnsubscribe | backend/src/websocket.ts:97-106 | only that connection's area is cleared, and the answer is 200 even for an unknown id |
| WebSocket.HandleMessage | backend/src/websocket.ts:51-73 | a missing body, a body that is not JSON and an unknown action each give their own 400 with no change. A subscribe without area gives 400; with one it answers 200, records the area only for a known connection, and is evicted by a 410 on the confirmation. An unsubscribe answers 200 and clears only that connection's area |
| WebSocket.Handler | backend/src/websocket.ts:12-37 | $connect and $disconnect go to their transitions and $default to the message dispatch; any other route gives 400 with no change |
| WebSocket.MalformedMessagesRefused | backend/src/websocket.ts:51-78 | a missing or unparsable body, an unknown action, or a subscribe without area gives 400 and leaves the registry unchanged |
| WebSocket.SubscribeRecordsArea | backend/src/websocket.ts:75-95 | a delivered subscribe records the area for that connection and changes nothing else |
| WebSocket.ReconnectResetsArea | backend/src/websocket.ts:39-43 | reconnecting under a subscribed id clears its area |
| WebSocket.Subscribers | backend/src/websocket.ts:120-121 | the subscribers of an area are exactly the registered connections whose area equals it |
| WebSocket.SubscribeMovesConnection | backend/src/websocket.ts:80-84 | a delivered subscribe of a known connection adds it to the new area's subscribers and removes it from every other area's |
| WebSocket.PublishReportUpdate | backend/src/websocket.ts:108-128 | the targets are exactly the subscribers of the area of (0, 0), and gone targets are evicted while the others are kept |
| WebSocket.PublishIgnoresCell | backend/src/websocket.ts:108-121 | the targets and the resulting registry do not depend on the report's cell |
| WebSocket.PublishMissesLocalSubscriber | backend/src/websocket.ts:109 | a client subscribed to area ezjmg gets no update for a report in cell ezjmgu |
| WebSocket.AreaOfCell | backend/src/websocket.ts:109 | a cell's area is its 5-character prefix |
| WebSocket.PublishToCellArea | backend/src/websocket.ts:108-128 | with the area taken from the cell, the targets are exactly that area's subscribers |
| WebSocket.LocalSubscriberReached | backend/src/websocket.ts:109 | with the area taken from the cell, and geohash nesting, a client subscribed to the area of a position receives the reports made there |
| WebSocket.CellAreaReachesLocalSubscriber | backend/src/websocket.ts:109 | the client of the counterexample is reached once the area comes from the cell |
| Nearest.FirstNearestUnique | app/src/components/UI/NearestSpotButton.tsx:36 | at most one index is the first nearest |
| Nearest.FindNearestCluster | app/src/components/UI/NearestSpotButton.tsx:17-43 | the result is absent exactly when there is no location or no cluster. Otherwise it is the cluster at the least distance, and on ties the earliest one |
| Nearest.Round | app/src/components/UI/NearestSpotButton.tsx:62 | `Math.round` is within half a unit of its argument |
| Nearest.NatTextRoundTrip | app/src/components/UI/NearestSpotButton.tsx:62-64 | the decimal text of a number reads back as that number |
| Nearest.FormatDistance | app/src/components/UI/NearestSpotButton.tsx:60-65 | below 1000 the label is the rounded metres with 'm'; otherwise kilometres with one decimal and 'km' |
| Nearest.MetresLabel | app/src/components/UI/NearestSpotButton.tsx:61-63 | for a distance in [0, 1000) the label ends in 'm' and reads back as a whole number within half a metre of the distance |
| Nearest.KilometresLabel | app/src/components/UI/NearestSpotButton.tsx:64 | a kilometre label ends in 'km' and reads back as tenths of a kilometre within 50 m of the distance |
| Nearest.JustUnderAKilometre | app/src/components/UI/NearestSpotButton.tsx:60-65 | 999.6 m shows as "1000m" and 1000 m as "1.0km" |
| Nearest.SpotDescription | app/src/components/UI/NearestSpotButton.tsx:67-74 | the three buckets map to their own phrases, and anything else maps to the default phrase |
| Nearest.DescriptionNamesBucket | app/src/components/UI/NearestSpotButton.tsx:67-74 | a real bucket never gets the default phrase, and different buckets get different phrases |
| Nearest.NearestSpotButton | app/src/components/UI/NearestSpotButton.tsx:76-118 | the button searches exactly when there is no location or no cluster. Otherwise it shows the nearest cluster with its bucket phrase and formatted distance |
| Navigation.GetNavigationOptions | app/src/services/navigation.ts:9-36 | the options are Waze, then Google Maps, then Apple Maps on iOS only, each with its link template and marked available |
| Navigation.FirstMatch | app/src/services/navigation.ts:78-81 | the leftmost position where the key is followed by a character other than '&' |
| Navigation.RunFrom | app/src/services/navigation.ts:78-81 | the capture `[^&]+` is the longest run without '&' |
| Navigation.RunIsUnique | app/src/services/navigation.ts:78-81 | a '&'-free prefix that ends at an '&' or the end is that run |
| Navigation.ExtractCoordinates | app/src/services/navigation.ts:77-85 | the result holds no '&', and it is empty exactly when neither "ll=" nor "daddr=" is followed by a usable character |
| Navigation.WazeCoordinatesRoundTrip | app/src/services/navigation.ts:77-79 | extracting from a Waze link gives back "lat,lng" |
| Navigation.AppleCoordinatesRoundTrip | app/src/services/navigation.ts:77-82 | extracting from an Apple Maps link gives back "lat,lng" |
| Navigation.FallbackUrl | app/src/services/navigation.ts:61-63 | links starting with 'http' are used unchanged; others become the Google Maps directions link with the extracted coordinates |
| Navigation.WazeFallsBackToGoogle | app/src/services/navigation.ts:61-63 | Waze's fallback is the Google Maps link for the same coordinates |
| Navigation.WebLinksKept | app/src/services/navigation.ts:61-63 | the Google and Apple links are their own fallback |
| Navigation.OpenNavigationUrl | app/src/services/navigation.ts:52-75 | success opens the link itself when it can be opened, otherwise its fallback; any failure gives false and the alert naming the app |
| Navigation.Lower | app/src/services/navigation.ts:42 | lower-casing maps A-Z to a-z and keeps every other character |
| Navigation.FindOption | app/src/services/navigation.ts:42 | the option found is the first whose name equals the preference, ignoring case |
| Navigation.NavigationDialog | app/src/services/navigation.ts:87-104 | the dialog has one button per option, in order, then 'Cancelar' |
| Navigation.FindOptionFindsFirst | app/src/services/navigation.ts:42 | the case-insensitive lookup returns exactly the first option whose name matches, and nothing when none matches |
| Navigation.ChooseNavigation | app/src/services/navigation.ts:41-49 | for any list of options, a non-empty preference opens the first option whose name equals it ignoring case; no preference, or no option of that name, shows the dialog |
| Navigation.OpenNavigation | app/src/services/navigation.ts:38-50 | over the options offered on the platform, a non-empty preference opens the first app whose name equals it ignoring case; no preference, or no such app, shows the dialog |
| Navigation.PreferenceIgnoresCase | app/src/services/navigation.ts:41-45 | the preference "WAZE" opens Waze |
| Navigation.AppleMapsOnIOS | app/src/services/navigation.ts:27-45 | on iOS, asking for Apple Maps opens the Apple Maps link |
| Navigation.AppleMapsOnlyOnIOS | app/src/services/navigation.ts:27-49 | elsewhere, asking for Apple Maps shows the dialog |
| Navigation.NoPreferenceShowsDialog | app/src/services/navigation.ts:41-49 | no preference, or an empty one, shows the dialog with 3 buttons, or 4 on iOS |
| Segments.ContinuousSegments | app/src/components/Map/WebMap.tsx:529-566 | fewer than 2 points give nothing. The segments are disjoint slices of at least 2 points, in input order. No gap over 15 m falls inside one, each ends at the input's ends or at such a gap, and every close pair of neighbours is in a segment |
| Segments.IntersectionFreeSegments | app/src/components/Map/WebMap.tsx:569-602 | the segments are disjoint slices of at least 2 points, in input order. None holds a point within 8 m of an intersection, each is bounded by such points or the input's ends, and every pair of neighbouring clear points is in a segment |
| Segments.ClearOfIntersections | app/src/components/Map/WebMap.tsx:580-592 | no emitted point is within 8 m of any intersection point |
| Segments.SpotsToBucket | app/src/components/Map/WebMap.tsx:920-921 | more than 5 spots give '5_plus', 3 to 5 give '2_5', and otherwise '1' |
| Segments.SpotsToBucketMonotone | app/src/components/Map/WebMap.tsx:920-921 | more spots never give a smaller bucket |
| Segments.ShouldReload | app/src/components/Map/WebMap.tsx:969-971 | reload exactly when nothing was loaded yet or either coordinate moved by more than 0.001 |
| Segments.OnCenterChange | app/src/components/Map/WebMap.tsx:959-978 | a loaded map with a ready loader reloads exactly when due, and then remembers the new centre; otherwise nothing changes |
| Segments.ReloadIdempotent | app/src/components/Map/WebMap.tsx:969-976 | the same centre twice reloads at most once |
| Segments.SmallMoveKeeps | app/src/components/Map/WebMap.tsx:969-971 | a move within 0.001 on both axes does not reload |
| LiveFeed.Push | app/src/hooks/useWebSocket.ts:32 | the new message goes first, the rest is a prefix of the old buffer, and the length is capped at 100 |
| LiveFeed.OnMessage | app/src/hooks/useWebSocket.ts:27-37 | only 'report_update' frames enter the buffer; anything else, unparsable frames included, changes nothing |
| LiveFeed.Subscribe | app/src/hooks/useWebSocket.ts:76-87 | an open socket sends the subscription and remembers the area; otherwise nothing changes |
| LiveFeed.Unsubscribe | app/src/hooks/useWebSocket.ts:89-100 | an open socket sends an empty-area unsubscribe and forgets the area; otherwise nothing changes |
| LiveFeed.Disconnect | app/src/hooks/useWebSocket.ts:61-74 | disconnecting always drops the socket, clears connected and forgets the area, and keeps the messages |
| LiveFeed.Connect | app/src/hooks/useWebSocket.ts:12-58 | a created socket starts connecting without becoming connected or sending anything, and keeps the area and messages; a failure to create one changes nothing |
| LiveFeed.OnOpen | app/src/hooks/useWebSocket.ts:17-25 | opening sets connected and subscribes again to a remembered non-empty area |
| LiveFeed.OnClose | app/src/hooks/useWebSocket.ts:39-43 | closing clears connected and the socket but keeps the remembered area |
| LiveFeed.RunBounded | app/src/hooks/useWebSocket.ts:32 | no sequence of events makes the buffer exceed 100 entries |
| LiveFeed.DropsOldest | app/src/hooks/useWebSocket.ts:32 | a full buffer drops its oldest entry and keeps the others in order |
| LiveFeed.ReconnectResubscribes | app/src/hooks/useWebSocket.ts:17-50 | after a drop and reopen, the remembered area is subscribed again |
| LiveFeed.DisconnectForgets | app/src/hooks/useWebSocket.ts:17-74 | after a manual disconnect, reopening sends no subscription |

## Left out

- Haversine and turf distances are parameters (`distance`, `gap`). Their trigonometry and floating point are not modelled.
- The geohash library (`ngeohash`) is the `Codec` parameter. `ValidCodec` assumes only the hash length and the neighbour count and length. `Nested` assumes the area code is a prefix of the cell code. `decodeGeohash` is carried as a field read without a contract.
- `snapToStreet` is float rounding and is not modelled.
- DynamoDB and API Gateway are maps and oracles. The rate-limit query on the user index is the oracle `recentReports`. `IndexAgrees` says when it reflects the store. The `BEGINS_WITH` read is the oracle `fetch`, and `FetchAgrees` says when it reflects the store.
- Both report reads, as written, would fail against DynamoDB's documented rules, and that failure is not modelled. The rate-limit query names `UserReportsIndex`, which the table definition in infra/lib/vapi-stack.ts:17-24 never declares, as reports.ts:29 itself notes. The nearby read's key condition `pk BEGINS_WITH :hash` (reports.ts:155) is not a valid key condition: the partition key takes only `=`, and `begins_with(...)` applies only to a sort key. As deployed, every authenticated `createReport` and every well-formed `getNearbyReports` would therefore land in the 500 catch. The model's 201, 429 and 200 answers exist because `recentReports` and `fetch` are total oracles. Reports.SecondReportRateLimited and Reports.NearbyReadsNineCells describe the code with a working index and a working prefix read.
- Typed request fields: `lat` and `lng` are modelled as numbers, and `count_bucket`, `reportId` and `status` as strings. The handlers do not check JSON types, so a body such as `{"lat":"0","lng":"1","count_bucket":"1"}` passes the truthiness test of reports.ts:15 (a non-empty string is truthy) and is stored with a string latitude. The same holds for `startParkingSession`. That case is not modelled.
- A request body that parses to a non-object (`null`) is treated as `Unparsable`, so it gets 500 as in the source, where destructuring `null` throws into the catch. A JSON number, string or array body is read as the empty object, as destructuring it does.
- WebSocket.SendMessage: eviction models the source's test `error.statusCode === 410` (backend/src/websocket.ts:142) with the `send` oracle returning `Failed(Some(410))`. The handler posts through the v3 `@aws-sdk/client-apigatewaymanagementapi` client (backend/src/websocket.ts:2). By that SDK's documented error shape, a 410 arrives as a `GoneException` whose status sits in `$metadata.httpStatusCode`, with no top-level `statusCode`, so as deployed the eviction branch would likely never fire. The eviction clauses of WebSocket.HandleSubscribe, WebSocket.HandleMessage and WebSocket.PublishReportUpdate hold for an oracle that reports the status the way the source's test expects.
- Store and send failures inside the handlers are not modelled, so the handlers never throw. Only an unparsable JSON body reaches their 500 path. The index-level 500 is modelled in `Router.Handle` through `Threw`. The WebSocket handler's own 500 catch is unreachable in the model.
- Reports.CreateReport: the request's `side` is typed as N/S/E/W or absent. The handler stores any other side text verbatim, and that case is not modelled.
- Reports.CreateReport: one clock reading serves as both `ts` and the base of `expiresAt`. The handler reads the clock twice.
- ISO-8601 strings are integer milliseconds, and reals stand in for JavaScript numbers. `Math.round` is floor(x + 0.5). `toFixed(1)` is rounding of tenths. NaN is None in the `parseFloat` oracle, and its effect on the radius comparison is modelled.
- WebSocket.PublishReportUpdate: the message payload is typed, with `ts` as an integer and `side` and bucket as enums. The handler passes strings.
- WebSocket.HandleSubscribe: a non-string `area` in the JSON message is not modelled.
- Navigation.Lower: only ASCII letters are lower-cased. `toLowerCase` also folds other scripts, but app names are ASCII.
- Navigation: coordinates are taken as their rendered text. `CoordinateText` states the one property of JavaScript number text used, namely that it has no '&' or '='.
- Navigation.OpenNavigationUrl: the platform linker is two oracles. The alert is returned, not shown.
- Segments.SpotsToBucket: the spot count is an integer. A fractional count is not modelled.
- Segments.IntersectionFreeSegments: a throwing distance call is not modelled. The distance is total here.
- `removeIntersectionsFromParkingLines`, the OpenStreetMap fetch and parse, random availability and the mock clusters are not modelled. They depend on the geometry library, the network or randomness.
- UI rendering, styling, gestures, overlays, live activities, location services and the HTTP client are not modelled.
- LiveFeed: socket creation, the 3-second reconnect timer and the `wasClean` decision are not modelled. The events are inputs.
- Concurrency is not modelled: the rate-limit check-then-write race, the parallel fan-out of `Promise.allSettled` and the reconnect timeout. The model is sequential, and the fan-out is modelled as independent sends.
- Infrastructure, the test scaffolding and the theme are not modelled.

## Findings

| source | as written | input that shows it | evidently intended | confidence | as-written member | corrected member |
|---|---|---|---|---|---|---|
| backend/src/websocket.ts:109 | updates go to subscribers of the area of point (0, 0), whatever the report's cell | a client subscribed to area ezjmg (its own location) and a report in cell ezjmgu: no update is sent | send to the subscribers of the area that holds the report's cell, as the line's own comment says | high, not executed | WebSocket.PublishMissesLocalSubscriber | WebSocket.PublishToCellArea, WebSocket.LocalSubscriberReached |
