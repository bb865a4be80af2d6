/**
 * The WebSocket handler of backend/src/websocket.ts: a registry from
 * connection id to an optional subscribed area, the route and message
 * dispatch, report-update fan-out, and eviction of gone connections.
 *
 * Each send to a connection is an oracle result; a failure carrying status
 * 410 means the connection is gone and it is removed from the registry.
 */
module WebSocket {
  import opened Wrappers
  import opened Types
  import opened Geohash

  /** Connection id to subscribed area; None is connected but not subscribed. */
  type Registry = map<string, Option<string>>

  /** The outcome of one post to a connection; `Failed` carries the thrown error's top-level `statusCode`, if any. */
  datatype SendResult = Delivered | Failed(statusCode: Option<int>)

  /** A send failure that means the connection is gone. */
  predicate IsGone(r: SendResult) {
    r == Failed(Some(410))
  }

  datatype WsResponse = WsResponse(statusCode: int, body: string)

  datatype Outcome = Outcome(response: WsResponse, registry: Registry)

  /**
   * What the handler makes of the message body: absent or empty, not JSON, or
   * the two fields it reads. A body that parses to `null` also throws when its
   * `action` is read, and lands in the same catch, so it is `Unparsable`.
   */
  datatype MessageBody = MissingBody | Unparsable | Parsed(action: Option<string>, area: Option<string>)

  /** `sendMessage`: a 410 failure evicts the connection; anything else leaves the registry alone. */
  function SendMessage(reg: Registry, id: string, result: SendResult): (reg': Registry)
    ensures IsGone(result) ==> reg'.Keys == reg.Keys - {id}
    ensures !IsGone(result) ==> reg' == reg
    ensures forall c :: c in reg' ==> c in reg && reg'[c] == reg[c]
  {
    if IsGone(result) then reg - {id} else reg
  }

  /** `$connect`: the connection is (re-)registered with no area. */
  function HandleConnect(reg: Registry, id: string): (out: Outcome)
    ensures out.response == WsResponse(200, "Connected")
    ensures out.registry.Keys == reg.Keys + {id}
    ensures out.registry[id] == None
    ensures forall c :: c in reg && c != id ==> out.registry[c] == reg[c]
  {
    Outcome(WsResponse(200, "Connected"), reg[id := None])
  }

  /** `$disconnect`: only that connection is removed. */
  function HandleDisconnect(reg: Registry, id: string): (out: Outcome)
    ensures out.response == WsResponse(200, "Disconnected")
    ensures out.registry.Keys == reg.Keys - {id}
    ensures forall c :: c in out.registry ==> out.registry[c] == reg[c]
  {
    Outcome(WsResponse(200, "Disconnected"), reg - {id})
  }

  /**
   * `handleSubscribe`: without an area, 400 and no change; otherwise a known
   * connection takes the area, an unknown one is not added, and the
   * confirmation send may evict the connection. The answer is 200 either way.
   */
  function HandleSubscribe(reg: Registry, id: string, area: Option<string>, send: string -> SendResult): (out: Outcome)
    ensures !TruthyText(area) ==> out == Outcome(WsResponse(400, "Missing area parameter"), reg)
    ensures TruthyText(area) ==> out.response == WsResponse(200, "Subscribed")
    ensures TruthyText(area) && id !in reg ==> out.registry == reg
    ensures TruthyText(area) && id in reg && !IsGone(send(id)) ==> out.registry == reg[id := Some(area.value)]
    ensures TruthyText(area) && IsGone(send(id)) ==> out.registry == reg - {id}
  {
    if !TruthyText(area) then
      Outcome(WsResponse(400, "Missing area parameter"), reg)
    else
      var reg1 := if id in reg then reg[id := Some(area.value)] else reg;
      Outcome(WsResponse(200, "Subscribed"), SendMessage(reg1, id, send(id)))
  }

  /** `handleUnsubscribe`: clears only that connection's area; 200 even for an unknown id. */
  function HandleUnsubscribe(reg: Registry, id: string): (out: Outcome)
    ensures out.response == WsResponse(200, "Unsubscribed")
    ensures out.registry.Keys == reg.Keys
    ensures id in reg ==> out.registry[id] == None
    ensures forall c :: c in reg && c != id ==> out.registry[c] == reg[c]
  {
    var reg' := if id in reg then reg[id := None] else reg;
    Outcome(WsResponse(200, "Unsubscribed"), reg')
  }

  /**
   * `handleMessage`: dispatch on the `action` field. A missing body, a body
   * that is not JSON and an unknown action are refused with 400 and no
   * change; `subscribe` and `unsubscribe` have the effects of their handlers.
   */
  function HandleMessage(reg: Registry, id: string, body: MessageBody, send: string -> SendResult): (out: Outcome)
    ensures body.MissingBody? ==> out == Outcome(WsResponse(400, "Missing message body"), reg)
    ensures body.Unparsable? ==> out == Outcome(WsResponse(400, "Invalid message format"), reg)
    ensures body.Parsed? && ParseAction(body.action.GetOr("")).None? ==> out == Outcome(WsResponse(400, "Unknown action"), reg)
    ensures body.Parsed? && body.action == Some("subscribe") ==>
              && (!TruthyText(body.area) ==> out == Outcome(WsResponse(400, "Missing area parameter"), reg))
              && (TruthyText(body.area) ==> out.response == WsResponse(200, "Subscribed"))
              && (TruthyText(body.area) && id !in reg ==> out.registry == reg)
              && (TruthyText(body.area) && id in reg && !IsGone(send(id)) ==> out.registry == reg[id := Some(body.area.value)])
              && (TruthyText(body.area) && IsGone(send(id)) ==> out.registry == reg - {id})
    ensures body.Parsed? && body.action == Some("unsubscribe") ==>
              && out.response == WsResponse(200, "Unsubscribed")
              && out.registry.Keys == reg.Keys
              && (id in reg ==> out.registry[id] == None)
              && (forall c :: c in reg && c != id ==> out.registry[c] == reg[c])
  {
    match body
    case MissingBody => Outcome(WsResponse(400, "Missing message body"), reg)
    case Unparsable => Outcome(WsResponse(400, "Invalid message format"), reg)
    case Parsed(action, area) =>
      if action == Some("subscribe") then HandleSubscribe(reg, id, area, send)
      else if action == Some("unsubscribe") then HandleUnsubscribe(reg, id)
      else Outcome(WsResponse(400, "Unknown action"), reg)
  }

  /** The WebSocket entry point, dispatching on the route key. */
  function Handler(reg: Registry, routeKey: string, id: string, body: MessageBody, send: string -> SendResult): (out: Outcome)
    ensures routeKey == "$connect" ==> out == HandleConnect(reg, id)
    ensures routeKey == "$disconnect" ==> out == HandleDisconnect(reg, id)
    ensures routeKey == "$default" ==> out == HandleMessage(reg, id, body, send)
    ensures routeKey !in {"$connect", "$disconnect", "$default"} ==> out == Outcome(WsResponse(400, "Unknown route"), reg)
  {
    if routeKey == "$connect" then HandleConnect(reg, id)
    else if routeKey == "$disconnect" then HandleDisconnect(reg, id)
    else if routeKey == "$default" then HandleMessage(reg, id, body, send)
    else Outcome(WsResponse(400, "Unknown route"), reg)
  }

  /** Every malformed message is refused with 400 and leaves the registry as it was. */
  lemma MalformedMessagesRefused(reg: Registry, id: string, body: MessageBody, send: string -> SendResult)
    requires body.MissingBody? || body.Unparsable?
             || (body.Parsed? && ParseAction(body.action.GetOr("")).None?)
             || (body.Parsed? && body.action == Some("subscribe") && !TruthyText(body.area))
    ensures var out := Handler(reg, "$default", id, body, send);
            out.response.statusCode == 400 && out.registry == reg
  {
  }

  /** Subscribing a known connection whose confirmation is delivered records the area and touches nothing else. */
  lemma SubscribeRecordsArea(reg: Registry, id: string, area: string, send: string -> SendResult)
    requires id in reg && area != "" && !IsGone(send(id))
    ensures var out := Handler(reg, "$default", id, Parsed(Some("subscribe"), Some(area)), send);
            && out.response.statusCode == 200
            && out.registry.Keys == reg.Keys
            && out.registry[id] == Some(area)
            && (forall c :: c in reg && c != id ==> out.registry[c] == reg[c])
  {
  }

  /** `$connect` on an existing id resets its subscription. */
  lemma ReconnectResetsArea(reg: Registry, id: string, area: string, body: MessageBody, send: string -> SendResult)
    requires id in reg && reg[id] == Some(area)
    ensures Handler(reg, "$connect", id, body, send).registry[id] == None
  {
  }

  // ---------------------------------------------------------------------
  // Fan-out
  // ---------------------------------------------------------------------

  /** The area `publishReportUpdate` looks up: always the area of the point (0, 0). */
  function PublishArea(c: Codec): string {
    GetAreaHash(c, 0.0, 0.0)
  }

  function Subscribers(reg: Registry, area: string): (ids: set<string>)
    ensures forall id :: id in ids <==> id in reg && reg[id] == Some(area)
  {
    set id | id in reg && reg[id] == Some(area)
  }

  /**
   * A delivered subscribe moves the connection into the area's subscribers
   * and out of every other area's, so each connection follows one area.
   */
  lemma SubscribeMovesConnection(reg: Registry, id: string, area: string, other: string, send: string -> SendResult)
    requires id in reg && area != "" && !IsGone(send(id)) && other != area
    ensures var reg' := HandleSubscribe(reg, id, Some(area), send).registry;
            && Subscribers(reg', area) == Subscribers(reg, area) + {id}
            && Subscribers(reg', other) == Subscribers(reg, other) - {id}
  {
    var reg' := HandleSubscribe(reg, id, Some(area), send).registry;
    assert reg' == reg[id := Some(area)];
  }

  datatype Publication = Publication(message: WebSocketMessage, targets: set<string>, registry: Registry)

  /**
   * `publishReportUpdate`: the message goes to every connection subscribed
   * to the publish area; each gone connection is evicted. The sends are
   * independent, so the result does not depend on their order.
   */
  function PublishReportUpdate(reg: Registry, c: Codec, geoHash6: string, side: Side, bucket: CountBucket,
                               confidence: real, ts: int, send: string -> SendResult): (p: Publication)
    ensures p.targets == Subscribers(reg, PublishArea(c))
    ensures p.registry.Keys == reg.Keys - set t | t in p.targets && IsGone(send(t))
    ensures forall id :: id in p.registry ==> p.registry[id] == reg[id]
    ensures p.message == WebSocketMessage(geoHash6, side, bucket, confidence, ts)
  {
    var targets := Subscribers(reg, PublishArea(c));
    var gone := set t | t in targets && IsGone(send(t));
    Publication(WebSocketMessage(geoHash6, side, bucket, confidence, ts), targets, reg - gone)
  }

  /** The targets ignore the report's cell: two different cells reach exactly the same connections. */
  lemma PublishIgnoresCell(reg: Registry, c: Codec, h: string, h': string, side: Side, bucket: CountBucket,
                           confidence: real, ts: int, send: string -> SendResult)
    ensures PublishReportUpdate(reg, c, h, side, bucket, confidence, ts, send).targets
            == PublishReportUpdate(reg, c, h', side, bucket, confidence, ts, send).targets
    ensures PublishReportUpdate(reg, c, h, side, bucket, confidence, ts, send).registry
            == PublishReportUpdate(reg, c, h', side, bucket, confidence, ts, send).registry
  {
  }

  // ---------------------------------------------------------------------
  // Publishing to the report's own area
  // ---------------------------------------------------------------------

  /** A client in Madrid subscribed to its area is not reached by a report in its own cell. */
  lemma PublishMissesLocalSubscriber(c: Codec, side: Side, bucket: CountBucket, confidence: real, ts: int,
                                     send: string -> SendResult)
    requires PublishArea(c) == "s0000"
    ensures PublishReportUpdate(map["client" := Some("ezjmg")], c, "ezjmgu", side, bucket, confidence, ts, send).targets == {}
  {
    var reg := map["client" := Some("ezjmg")];
    assert Some("ezjmg") != Some("s0000");
    assert Subscribers(reg, "s0000") == {};
  }

  /** The area a cell lies in: its first five characters, as a geohash prefix. */
  function AreaOfCell(geoHash6: string): (area: string)
    ensures |geoHash6| >= AreaPrecision ==> |area| == AreaPrecision && area <= geoHash6
    ensures |geoHash6| < AreaPrecision ==> area == geoHash6
  {
    if |geoHash6| >= AreaPrecision then geoHash6[..AreaPrecision] else geoHash6
  }

  /**
   * `publishReportUpdate` with the area derived from the report's cell:
   * the message reaches the subscribers of the area that holds the cell.
   */
  function PublishToCellArea(reg: Registry, geoHash6: string, side: Side, bucket: CountBucket,
                             confidence: real, ts: int, send: string -> SendResult): (p: Publication)
    ensures p.targets == Subscribers(reg, AreaOfCell(geoHash6))
    ensures p.registry.Keys == reg.Keys - set t | t in p.targets && IsGone(send(t))
    ensures forall id :: id in p.registry ==> p.registry[id] == reg[id]
    ensures p.message == WebSocketMessage(geoHash6, side, bucket, confidence, ts)
  {
    var targets := Subscribers(reg, AreaOfCell(geoHash6));
    var gone := set t | t in targets && IsGone(send(t));
    Publication(WebSocketMessage(geoHash6, side, bucket, confidence, ts), targets, reg - gone)
  }

  /** Geohash nesting: the area code of a point is a prefix of its cell code. */
  ghost predicate Nested(c: Codec) {
    forall lat: real, lng: real {:trigger c.encode(lat, lng, AreaPrecision)} ::
      c.encode(lat, lng, AreaPrecision) <= c.encode(lat, lng, DefaultPrecision)
  }

  /**
   * With the cell-derived area, a client subscribed to the area of its
   * position receives every report made at that position.
   */
  lemma LocalSubscriberReached(reg: Registry, c: Codec, id: string, lat: real, lng: real, side: Side,
                               bucket: CountBucket, confidence: real, ts: int, send: string -> SendResult)
    requires ValidCodec(c) && Nested(c)
    requires id in reg && reg[id] == Some(GetAreaHash(c, lat, lng))
    ensures id in PublishToCellArea(reg, EncodeGeohash(c, lat, lng), side, bucket, confidence, ts, send).targets
  {
    var cell := EncodeGeohash(c, lat, lng);
    var area := c.encode(lat, lng, AreaPrecision);
    assert area == GetAreaHash(c, lat, lng) && |area| == AreaPrecision;
    assert area <= cell;
    assert AreaOfCell(cell) == cell[..AreaPrecision] == area;
  }

  /** The Madrid client of the counterexample is reached once the area comes from the cell. */
  lemma CellAreaReachesLocalSubscriber(side: Side, bucket: CountBucket, confidence: real, ts: int,
                                       send: string -> SendResult)
    ensures PublishToCellArea(map["client" := Some("ezjmg")], "ezjmgu", side, bucket, confidence, ts, send).targets == {"client"}
  {
    assert AreaOfCell("ezjmgu") == "ezjmg";
  }
}
