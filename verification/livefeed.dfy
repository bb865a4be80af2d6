/**
 * The client side of the live feed, app/src/hooks/useWebSocket.ts: the
 * bounded newest-first buffer of report updates, the remembered
 * subscription, and the subscribe messages the hook sends. Socket creation,
 * timers and the network are outside; their events are the inputs here.
 */
module LiveFeed {
  import opened Wrappers
  import opened Types

  const BufferLimit: nat := 100

  datatype ReadyState = Connecting | Open | Closing | Closed

  /**
   * The hook's state: the `connected` flag, the message buffer, the current
   * socket's ready state (None when there is no socket), the remembered
   * area, and the subscription messages sent so far.
   */
  datatype Feed = Feed(
    connected: bool,
    messages: seq<WebSocketMessage>,
    socket: Option<ReadyState>,
    subscription: Option<string>,
    sent: seq<WebSocketSubscription>)

  const Initial := Feed(false, [], None, None, [])

  /** An incoming frame: not JSON, or JSON with its `type` field and the update it carries. */
  datatype Incoming = Garbled | Frame(kind: Option<string>, update: WebSocketMessage)

  /** `setMessages(prev => [message, ...prev.slice(0, 99)])`. */
  function Push(prev: seq<WebSocketMessage>, m: WebSocketMessage): (r: seq<WebSocketMessage>)
    ensures |r| == if |prev| < BufferLimit then |prev| + 1 else BufferLimit
    ensures r[0] == m && r[1..] <= prev
  {
    [m] + prev[..if |prev| < BufferLimit - 1 then |prev| else BufferLimit - 1]
  }

  /** `onmessage`: only report updates enter the buffer, at the front. */
  function OnMessage(f: Feed, frame: Incoming): (f': Feed)
    ensures frame.Frame? && frame.kind == Some("report_update") ==> f' == f.(messages := Push(f.messages, frame.update))
    ensures !(frame.Frame? && frame.kind == Some("report_update")) ==> f' == f
  {
    match frame
    case Frame(kind, update) =>
      if kind == Some("report_update") then f.(messages := Push(f.messages, update)) else f
    case Garbled => f
  }

  predicate IsOpen(f: Feed) {
    f.socket == Some(Open)
  }

  /** `subscribe(area)`: sends and remembers the area only on an open socket. */
  function Subscribe(f: Feed, area: string): (f': Feed)
    ensures IsOpen(f) ==> f' == f.(sent := f.sent + [WebSocketSubscription(SubscriptionAction.Subscribe, area)], subscription := Some(area))
    ensures !IsOpen(f) ==> f' == f
  {
    if IsOpen(f) then
      f.(sent := f.sent + [WebSocketSubscription(SubscriptionAction.Subscribe, area)], subscription := Some(area))
    else f
  }

  /** `unsubscribe()`: sends an empty-area unsubscribe and forgets the area only on an open socket. */
  function Unsubscribe(f: Feed): (f': Feed)
    ensures IsOpen(f) ==> f' == f.(sent := f.sent + [WebSocketSubscription(SubscriptionAction.Unsubscribe, "")], subscription := None)
    ensures !IsOpen(f) ==> f' == f
  {
    if IsOpen(f) then
      f.(sent := f.sent + [WebSocketSubscription(SubscriptionAction.Unsubscribe, "")], subscription := None)
    else f
  }

  /** `disconnect()`: drops the socket, clears `connected` and forgets the area; messages stay. */
  function Disconnect(f: Feed): (f': Feed)
    ensures !f'.connected && f'.socket.None? && f'.subscription.None?
    ensures f'.messages == f.messages && f'.sent == f.sent
  {
    f.(connected := false, socket := None, subscription := None)
  }

  /** `connect()`: a fresh socket, still connecting; a failure to create one changes nothing. */
  function Connect(f: Feed, created: bool): (f': Feed)
    ensures created ==> f'.socket == Some(Connecting) && f'.subscription == f.subscription && f'.messages == f.messages
    ensures f'.connected == f.connected && f'.sent == f.sent
    ensures !created ==> f' == f
  {
    if created then f.(socket := Some(Connecting)) else f
  }

  /** `onopen`: connected, and a remembered non-empty area is subscribed again. */
  function OnOpen(f: Feed): (f': Feed)
    ensures f'.connected && IsOpen(f')
    ensures TruthyText(f.subscription) ==>
              f'.sent == f.sent + [WebSocketSubscription(SubscriptionAction.Subscribe, f.subscription.value)]
    ensures !TruthyText(f.subscription) ==> f'.sent == f.sent
    ensures f'.subscription == f.subscription && f'.messages == f.messages
  {
    var live := f.(connected := true, socket := Some(Open));
    if TruthyText(f.subscription) then Subscribe(live, f.subscription.value) else live
  }

  /** `onclose`: not connected and no socket; the remembered area survives for the reconnect. */
  function OnClose(f: Feed): (f': Feed)
    ensures !f'.connected && f'.socket.None?
    ensures f'.subscription == f.subscription && f'.messages == f.messages && f'.sent == f.sent
  {
    f.(connected := false, socket := None)
  }

  /** The buffer bound every transition keeps. */
  predicate Bounded(f: Feed) {
    |f.messages| <= BufferLimit
  }

  datatype Event = Message(frame: Incoming) | SubscribeTo(area: string) | UnsubscribeAll
                 | DisconnectNow | ConnectNow(created: bool) | SocketOpened | SocketClosed

  function Apply(f: Feed, e: Event): Feed {
    match e
    case Message(frame) => OnMessage(f, frame)
    case SubscribeTo(area) => Subscribe(f, area)
    case UnsubscribeAll => Unsubscribe(f)
    case DisconnectNow => Disconnect(f)
    case ConnectNow(created) => Connect(f, created)
    case SocketOpened => OnOpen(f)
    case SocketClosed => OnClose(f)
  }

  function Run(f: Feed, es: seq<Event>): Feed
    decreases |es|
  {
    if es == [] then f else Run(Apply(f, es[0]), es[1..])
  }

  /** The buffer never holds more than 100 updates, whatever happens. */
  lemma {:induction false} RunBounded(f: Feed, es: seq<Event>)
    requires Bounded(f)
    ensures Bounded(Run(f, es))
    decreases |es|
  {
    if es != [] {
      RunBounded(Apply(f, es[0]), es[1..]);
    }
  }

  /** After a full buffer takes an update, the oldest entry is gone and the rest keep their order. */
  lemma DropsOldest(prev: seq<WebSocketMessage>, m: WebSocketMessage)
    requires |prev| == BufferLimit
    ensures |Push(prev, m)| == BufferLimit
    ensures Push(prev, m)[1..] == prev[..BufferLimit - 1]
  {
  }

  /** A dropped socket that reopens subscribes again to the area it had. */
  lemma ReconnectResubscribes(f: Feed, area: string)
    requires IsOpen(f) && area != ""
    ensures var f' := OnOpen(Connect(OnClose(Subscribe(f, area)), true));
            && f'.subscription == Some(area)
            && f'.sent[|f'.sent| - 1] == WebSocketSubscription(SubscriptionAction.Subscribe, area)
  {
  }

  /** After a manual disconnect, reopening does not subscribe again. */
  lemma DisconnectForgets(f: Feed)
    ensures var g := Disconnect(f);
            OnOpen(Connect(g, true)).sent == g.sent
  {
  }
}
