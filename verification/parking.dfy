/**
 * The parking-session handlers of backend/src/handlers/parking.ts.
 *
 * Sessions live in a map keyed by `(userId, startTs)`. The "current open
 * session" lookup is a store query for the user's sessions, newest first,
 * with `Limit: 1` and a filter on the absence of `end_ts`; the store applies
 * the limit before the filter, so the query sees only the newest session and
 * yields it only when it is open.
 */
module Parking {
  import opened Wrappers
  import opened Types
  import opened Http

  type SessionStore = map<SessionKey, ParkingSession>

  datatype Outcome = Outcome(response: Response, state: SessionStore)

  const MissingParkFields := "Missing required fields: lat, lng"
  const NoActiveSession := "No active parking session found"
  const SessionEndedText := "Parking session ended"

  lemma SomeElement(s: set<int>) returns (x: int)
    requires s != {}
    ensures x in s
  {
    if forall y :: y !in s {
      assert false;
    }
    x :| x in s;
  }

  lemma MaxExists(s: set<int>)
    requires s != {}
    ensures exists m :: m in s && forall x :: x in s ==> x <= m
    decreases |s|
  {
    var y := SomeElement(s);
    var rest := s - {y};
    assert forall x :: x in s ==> x == y || x in rest;
    if rest == {} {
      assert forall x :: x in s ==> x == y;
      assert y in s && forall x :: x in s ==> x <= y;
    } else {
      MaxExists(rest);
      var m :| m in rest && forall x :: x in rest ==> x <= m;
      var w := if y > m then y else m;
      assert forall x :: x in s ==> x == y || x in rest;
      assert w in s && forall x :: x in s ==> x <= w;
    }
  }

  function MaxOf(s: set<int>): (m: int)
    requires s != {}
    ensures m in s && forall x :: x in s ==> x <= m
  {
    MaxExists(s);
    var m :| m in s && forall x :: x in s ==> x <= m; m
  }

  /** The start instants of a user's sessions: the sort keys of their partition. */
  function UserStarts(store: SessionStore, user: string): set<int> {
    set k | k in store && k.userId == user :: k.startTs
  }

  /** The key of the user's newest session, the first item of a newest-first query. */
  function NewestKey(store: SessionStore, user: string): (k: Option<SessionKey>)
    ensures k.None? <==> forall k' :: k' in store ==> k'.userId != user
    ensures k.Some? ==> k.value in store && k.value.userId == user
    ensures k.Some? ==> forall k' :: k' in store && k'.userId == user ==> k'.startTs <= k.value.startTs
  {
    var starts := UserStarts(store, user);
    assert forall k' :: k' in store && k'.userId == user ==> k'.startTs in starts;
    if starts == {} then
      None
    else
      var m := MaxOf(starts);
      Some(SessionKey(user, m))
  }

  /** `k` is the user's newest session and it is open. */
  ghost predicate IsNewestOpen(store: SessionStore, user: string, k: SessionKey) {
    && k in store && k.userId == user && store[k].IsOpen()
    && forall k' :: k' in store && k'.userId == user ==> k'.startTs <= k.startTs
  }

  /** The query `Limit 1, newest first, filter end_ts absent`: the newest session if it is open, else nothing. */
  function CurrentOpenKey(store: SessionStore, user: string): (k: Option<SessionKey>)
    ensures k.Some? ==> IsNewestOpen(store, user, k.value)
    ensures k.None? <==> forall k' :: !IsNewestOpen(store, user, k')
  {
    var n := NewestKey(store, user);
    assert forall k' :: IsNewestOpen(store, user, k') ==> n.Some? && n.value.startTs == k'.startTs && n.value == k';
    if n.Some? && store[n.value].IsOpen() then
      assert IsNewestOpen(store, user, n.value);
      n
    else
      None
  }

  /** The query finds any session that is the user's newest and open. */
  lemma NewestOpenIsCurrent(store: SessionStore, user: string, k: SessionKey)
    ensures IsNewestOpen(store, user, k) ==> CurrentOpenKey(store, user) == Some(k)
  {
    var c := CurrentOpenKey(store, user);
    if c.Some? {
      assert IsNewestOpen(store, user, k) ==> c.value.startTs == k.startTs;
    }
  }

  /** A closed copy: everything kept, `end_ts` added. */
  function Close(s: ParkingSession, now: int): (c: ParkingSession)
    ensures !c.IsOpen() && c.endTs == Some(now)
    ensures c.userId == s.userId && c.startTs == s.startTs && c.carLat == s.carLat && c.carLng == s.carLng && c.note == s.note
  {
    s.(endTs := Some(now))
  }

  datatype Ended = Ended(sessionId: SessionKey, endTs: int)

  /** `endExistingSession`: close the current open session if there is one. */
  function EndExistingSession(store: SessionStore, user: string, now: int): (out: (Option<Ended>, SessionStore))
    ensures out.0.None? <==> CurrentOpenKey(store, user).None?
    ensures out.0.None? ==> out.1 == store
    ensures out.0.Some? ==>
              var k := CurrentOpenKey(store, user).value;
              && out.1.Keys == store.Keys
              && out.1[k] == Close(store[k], now)
              && (forall k' :: k' in store && k' != k ==> out.1[k'] == store[k'])
              && out.0.value == Ended(SessionKey(store[k].userId, store[k].startTs), now)
  {
    match CurrentOpenKey(store, user)
    case None => (None, store)
    case Some(k) =>
      var s := store[k];
      (Some(Ended(SessionKey(s.userId, s.startTs), now)), store[k := Close(s, now)])
  }

  /**
   * `startParkingSession`: falsy lat or lng (400) before the caller check
   * (401); then the current open session is closed and a new open one is
   * written under `(user, now)`, answering 201.
   */
  function StartParkingSession(store: SessionStore, e: Event, now: int): (out: Outcome)
    ensures e.body.Unparsable? ==> out == Outcome(CreateErrorResponse(500, InternalError), store)
    ensures e.body.Json? && !(TruthyNumber(e.body.fields.lat) && TruthyNumber(e.body.fields.lng)) ==>
              out == Outcome(CreateErrorResponse(400, MissingParkFields), store)
    ensures out.response.statusCode == 401 <==>
              e.body.Json? && TruthyNumber(e.body.fields.lat) && TruthyNumber(e.body.fields.lng) && GetUserIdFromEvent(e).None?
    ensures out.response.statusCode == 201 <==>
              e.body.Json? && TruthyNumber(e.body.fields.lat) && TruthyNumber(e.body.fields.lng) && GetUserIdFromEvent(e).Some?
    ensures out.response.statusCode != 201 ==> out.state == store
    ensures out.response.statusCode == 201 ==>
              var b, user := e.body.fields, GetUserIdFromEvent(e).value;
              var k := SessionKey(user, now);
              var closed := EndExistingSession(store, user, now).1;
              && out.state.Keys == closed.Keys + {k}
              && out.state[k] == ParkingSession(user, now, b.lat.value, b.lng.value, b.note, None)
              && (forall k' :: k' in closed && k' != k ==> out.state[k'] == closed[k'])
              && out.response.body == SessionStarted(k, now, b.lat.value, b.lng.value, b.note)
  {
    match e.body
    case Unparsable => Outcome(CreateErrorResponse(500, InternalError), store)
    case Json(b) =>
      if !TruthyNumber(b.lat) || !TruthyNumber(b.lng) then
        Outcome(CreateErrorResponse(400, MissingParkFields), store)
      else
        var user := GetUserIdFromEvent(e);
        if user.None? then
          Outcome(CreateErrorResponse(401, AuthRequired), store)
        else
          var closed := EndExistingSession(store, user.value, now).1;
          var k := SessionKey(user.value, now);
          Outcome(
            CreateResponse(201, SessionStarted(k, now, b.lat.value, b.lng.value, b.note)),
            closed[k := ParkingSession(user.value, now, b.lat.value, b.lng.value, b.note, None)])
  }

  /** `endParkingSession`: 401 without a caller, 404 with no open session, else 200 after closing it. */
  function EndParkingSession(store: SessionStore, e: Event, now: int): (out: Outcome)
    ensures GetUserIdFromEvent(e).None? ==> out == Outcome(CreateErrorResponse(401, AuthRequired), store)
    ensures GetUserIdFromEvent(e).Some? && CurrentOpenKey(store, GetUserIdFromEvent(e).value).None? ==>
              out == Outcome(CreateErrorResponse(404, NoActiveSession), store)
    ensures out.response.statusCode == 200 <==>
              GetUserIdFromEvent(e).Some? && CurrentOpenKey(store, GetUserIdFromEvent(e).value).Some?
    ensures out.response.statusCode == 200 ==>
              var k := CurrentOpenKey(store, GetUserIdFromEvent(e).value).value;
              && out.state == store[k := Close(store[k], now)]
              && out.response.body == SessionEnded(SessionEndedText, SessionKey(store[k].userId, store[k].startTs), now)
  {
    var user := GetUserIdFromEvent(e);
    if user.None? then
      Outcome(CreateErrorResponse(401, AuthRequired), store)
    else
      var (ended, store') := EndExistingSession(store, user.value, now);
      if ended.None? then
        Outcome(CreateErrorResponse(404, NoActiveSession), store)
      else
        Outcome(CreateResponse(200, SessionEnded(SessionEndedText, ended.value.sessionId, ended.value.endTs)), store')
  }

  /** `getCurrentParkingSession`: read-only; 404 (a message, not an error) when nothing is open. */
  function GetCurrentParkingSession(store: SessionStore, e: Event): (r: Response)
    ensures GetUserIdFromEvent(e).None? ==> r == CreateErrorResponse(401, AuthRequired)
    ensures GetUserIdFromEvent(e).Some? ==>
              var current := CurrentOpenKey(store, GetUserIdFromEvent(e).value);
              && (current.None? ==> r == CreateResponse(404, Message(NoActiveSession)))
              && (current.Some? ==>
                    var s := store[current.value];
                    r == CreateResponse(200, CurrentSession(SessionKey(s.userId, s.startTs), s.startTs, s.carLat, s.carLng, s.note)))
  {
    var user := GetUserIdFromEvent(e);
    if user.None? then
      CreateErrorResponse(401, AuthRequired)
    else
      match CurrentOpenKey(store, user.value)
      case None => CreateResponse(404, Message(NoActiveSession))
      case Some(k) =>
        var s := store[k];
        CreateResponse(200, CurrentSession(SessionKey(s.userId, s.startTs), s.startTs, s.carLat, s.carLng, s.note))
  }

  // ---------------------------------------------------------------------
  // The one-open-session invariant
  // ---------------------------------------------------------------------

  /** Any open session of the user is the user's newest. */
  ghost predicate OpenIsNewest(store: SessionStore, user: string) {
    forall k :: k in store && k.userId == user && store[k].IsOpen() ==> IsNewestOpen(store, user, k)
  }

  /** The clock has not gone backwards past any of the user's sessions. */
  ghost predicate ClockAfter(store: SessionStore, user: string, now: int) {
    forall k :: k in store && k.userId == user ==> k.startTs <= now
  }

  /** Under the invariant a user has at most one open session, and the query finds it. */
  lemma OpenIsNewestMeansOne(store: SessionStore, user: string, k: SessionKey, k': SessionKey)
    requires OpenIsNewest(store, user)
    requires k in store && k.userId == user && store[k].IsOpen()
    requires k' in store && k'.userId == user && store[k'].IsOpen()
    ensures k == k'
    ensures CurrentOpenKey(store, user) == Some(k)
  {
    assert IsNewestOpen(store, user, k) && IsNewestOpen(store, user, k');
    NewestOpenIsCurrent(store, user, k);
  }

  /** Starting a session keeps the invariant: afterwards the new session is the user's only open one. */
  lemma StartKeepsOpenIsNewest(store: SessionStore, e: Event, now: int)
    requires OpenIsNewest(store, GetUserIdFromEvent(e).GetOr(""))
    requires ClockAfter(store, GetUserIdFromEvent(e).GetOr(""), now)
    requires StartParkingSession(store, e, now).response.statusCode == 201
    ensures var user := GetUserIdFromEvent(e).value;
            var s' := StartParkingSession(store, e, now).state;
            && OpenIsNewest(s', user)
            && CurrentOpenKey(s', user) == Some(SessionKey(user, now))
            && (forall k :: k in s' && k.userId == user && s'[k].IsOpen() ==> k == SessionKey(user, now))
  {
    var user := GetUserIdFromEvent(e).value;
    var closed := EndExistingSession(store, user, now).1;
    var s' := StartParkingSession(store, e, now).state;
    var nk := SessionKey(user, now);
    forall k | k in closed && k.userId == user && k != nk
      ensures !closed[k].IsOpen()
    {
      NewestOpenIsCurrent(store, user, k);
    }
    assert IsNewestOpen(s', user, nk);
    NewestOpenIsCurrent(s', user, nk);
  }

  /** Ending a session leaves the user with no open session at all. */
  lemma EndLeavesNoneOpen(store: SessionStore, e: Event, now: int)
    requires GetUserIdFromEvent(e).Some?
    requires OpenIsNewest(store, GetUserIdFromEvent(e).value)
    ensures var user := GetUserIdFromEvent(e).value;
            var s' := EndParkingSession(store, e, now).state;
            && (forall k :: k in s' && k.userId == user ==> !s'[k].IsOpen())
            && OpenIsNewest(s', user)
  {
    var user := GetUserIdFromEvent(e).value;
    var s' := EndParkingSession(store, e, now).state;
    forall k | k in s' && k.userId == user
      ensures !s'[k].IsOpen()
    {
      NewestOpenIsCurrent(store, user, k);
    }
  }

  /**
   * Because the store limits before filtering, an older open session behind a
   * newer closed one is invisible to the query.
   */
  lemma LimitBeforeFilterHidesOlderOpen(user: string, older: ParkingSession, newer: ParkingSession)
    requires older.IsOpen() && !newer.IsOpen()
    ensures var store := map[SessionKey(user, 1) := older, SessionKey(user, 2) := newer];
            CurrentOpenKey(store, user).None?
  {
    var store := map[SessionKey(user, 1) := older, SessionKey(user, 2) := newer];
    var n := NewestKey(store, user);
    assert SessionKey(user, 2) in store;
    assert n.value.startTs == 2;
  }
}
