/** The `google-calendar` function: per-user OAuth credentials for the calendar API,
    exchanged from an authorization code, refreshed when expired, deleted on
    disconnect, and the calendar actions that need a valid access token. */
module CalendarBroker {
  import opened Common
  import opened Records

  const SecondMillis: int := 1000

  /** How far ahead `list-events` looks when no `timeMax` is given: 30 days. */
  const ListWindowMillis: int := 30 * 24 * 60 * 60 * 1000

  const MissingHeaderMessage: string := "Missing authorization header"
  const UnauthorizedMessage: string := "Unauthorized"
  const StoreFailedMessage: string := "Failed to store tokens"
  const NotConnectedMessage: string := "Not connected to Google Calendar"
  const UnknownActionMessage: string := "Unknown action"
  const DefaultCalendar: string := "primary"

  const CalendarScope: string :=
    "https://www.googleapis.com/auth/calendar https://www.googleapis.com/auth/calendar.events"

  /** A row of `google_calendar_tokens`; `expiresAt` is in milliseconds. */
  datatype Credential = Credential(accessToken: string, refreshToken: Option<string>, expiresAt: int)

  /** The table, keyed by `user_id` (the upsert's conflict key): at most one row per user. */
  type TokenStore = map<UserId, Credential>

  /** The token endpoint's answer: tokens with a lifetime in seconds, or a body whose
      `error` field is set (with an optional, possibly empty, `error_description`). */
  datatype TokenReply =
    | Tokens(accessToken: string, refreshToken: Option<string>, expiresIn: int)
    | TokenError(error: string, description: string)

  /** `error_description || error`. */
  function ProviderMessage(error: string, description: string): string {
    if description != "" then description else error
  }

  /** A `timeMin`/`timeMax` argument: the caller's text, or an instant the function chose. */
  datatype TimeArg = Given(text: string) | At(millis: int)

  /** The event body the client builds; the function forwards it without looking inside. */
  datatype EventPayload = EventPayload(summary: string, description: string, start: int, end: int)

  datatype RemoteCall =
    | ListCalendars(bearer: string)
    | ListEvents(bearer: string, calendarId: string, timeMin: TimeArg, timeMax: TimeArg)
    | InsertEvent(bearer: string, calendarId: string, event: EventPayload)
    | RemoveEvent(bearer: string, calendarId: string, eventId: string)

  /** Every outbound request: to the token endpoint, or to the calendar API. */
  datatype ProviderCall =
    | CodeGrant(code: string, redirectUri: string)
    | RefreshGrant(refreshToken: Option<string>)
    | CalendarCall(call: RemoteCall)

  /** The query parameters of the consent URL returned by `auth-url`. */
  datatype AuthUrlParams = AuthUrlParams(
    clientId: string,
    redirectUri: string,
    responseType: string,
    scope: string,
    accessType: string,
    prompt: string,
    state: string)

  /** The fields the actions read from the JSON body; `calendarId` is absent when left out. */
  datatype RequestBody = RequestBody(
    code: string,
    redirectUri: string,
    calendarId: Option<string>,
    event: EventPayload,
    eventId: string)

  datatype CalendarRequest = CalendarRequest(
    authHeader: Option<string>,
    action: Option<string>,
    query: map<string, string>,
    body: RequestBody)

  /** Everything outside the function: the clock, the auth collaborator's answer, the
      client id, the token endpoint's answers, store failures, the calendar API's reply. */
  datatype Env = Env(
    now: int,
    authUser: Option<UserId>,
    clientId: string,
    codeReply: TokenReply,
    refreshReply: TokenReply,
    readFails: bool,
    upsertFails: bool,
    updateFails: bool,
    deleteFails: bool,
    remoteBody: string)

  datatype Body =
    | ErrorBody(error: string)
    | AuthUrlBody(params: AuthUrlParams)
    | SuccessBody
    | StatusBody(connected: bool)
    | Relayed(json: string)

  datatype Response = Response(status: int, body: Body)

  /** The table afterwards, the HTTP response, and the outbound requests in order. */
  datatype Outcome = Outcome(store: TokenStore, response: Response, calls: seq<ProviderCall>)

  /** The result of `getValidToken`: the table afterwards, the token, the requests made. */
  datatype Lookup = Lookup(store: TokenStore, token: Option<string>, calls: seq<ProviderCall>)

  /** `getValidToken`: no token when the row cannot be read (a store error or no row);
      the stored token while it has not expired; otherwise one refresh request, whose
      failure yields no token and leaves the row alone, and whose success rewrites only
      the access token and its expiry. The update's result is not inspected. */
  function GetValidToken(s: TokenStore, user: UserId, now: int, refresh: TokenReply,
                         readFails: bool, updateFails: bool): (r: Lookup)
    ensures readFails || user !in s ==> r == Lookup(s, None, [])
    ensures !readFails && user in s && now < s[user].expiresAt ==> r == Lookup(s, Some(s[user].accessToken), [])
    ensures !readFails && user in s && s[user].expiresAt <= now ==> r.calls == [RefreshGrant(s[user].refreshToken)]
    ensures !readFails && user in s && s[user].expiresAt <= now && refresh.TokenError? ==> r.token.None? && r.store == s
    ensures !readFails && user in s && s[user].expiresAt <= now && refresh.Tokens? ==>
      && r.token == Some(refresh.accessToken)
      && (updateFails ==> r.store == s)
      && (!updateFails ==> r.store == s[user := Credential(refresh.accessToken, s[user].refreshToken,
                                                          now + refresh.expiresIn * SecondMillis)])
    ensures r.store.Keys == s.Keys
  {
    if readFails || user !in s then Lookup(s, None, [])
    else
      var c := s[user];
      if c.expiresAt <= now then
        var calls := [RefreshGrant(c.refreshToken)];
        match refresh
        case TokenError(_, _) => Lookup(s, None, calls)
        case Tokens(a, _, e) =>
          var s' := if updateFails then s else s[user := c.(accessToken := a, expiresAt := now + e * SecondMillis)];
          Lookup(s', Some(a), calls)
      else Lookup(s, Some(c.accessToken), [])
  }

  /** The upserted row. The body carries no `refresh_token` key when the provider sent none,
      so an existing row keeps its refresh token; a new row has none. */
  function Upserted(s: TokenStore, user: UserId, access: string, refresh: Option<string>,
                    expiresAt: int): Credential {
    var kept := if refresh.Some? then refresh else if user in s then s[user].refreshToken else None;
    Credential(access, kept, expiresAt)
  }

  /** `exchange-code`: one request to the token endpoint; a provider error or a failed
      upsert writes nothing, success writes the caller's row only. */
  function ExchangeCode(s: TokenStore, user: UserId, body: RequestBody, env: Env): (r: Outcome)
    ensures r.calls == [CodeGrant(body.code, body.redirectUri)]
    ensures env.codeReply.TokenError? ==>
      r.store == s && r.response == Response(500, ErrorBody(ProviderMessage(env.codeReply.error, env.codeReply.description)))
    ensures env.codeReply.Tokens? && env.upsertFails ==>
      r.store == s && r.response == Response(500, ErrorBody(StoreFailedMessage))
    ensures env.codeReply.Tokens? && !env.upsertFails ==>
      && r.response == Response(200, SuccessBody)
      && user in r.store
      && r.store[user].accessToken == env.codeReply.accessToken
      && r.store[user].expiresAt == env.now + env.codeReply.expiresIn * SecondMillis
      && (env.codeReply.refreshToken.Some? ==> r.store[user].refreshToken == env.codeReply.refreshToken)
      && (env.codeReply.refreshToken.None? && user in s ==> r.store[user].refreshToken == s[user].refreshToken)
      && (env.codeReply.refreshToken.None? && user !in s ==> r.store[user].refreshToken.None?)
      && r.store - {user} == s - {user}
  {
    var calls := [CodeGrant(body.code, body.redirectUri)];
    match env.codeReply
    case TokenError(e, d) => Outcome(s, Response(500, ErrorBody(ProviderMessage(e, d))), calls)
    case Tokens(a, rt, exp) =>
      if env.upsertFails then Outcome(s, Response(500, ErrorBody(StoreFailedMessage)), calls)
      else
        var row := Upserted(s, user, a, rt, env.now + exp * SecondMillis);
        Outcome(s[user := row], Response(200, SuccessBody), calls)
  }

  /** `disconnect`: the caller's row is removed whether or not it existed. */
  function Disconnect(s: TokenStore, user: UserId): (r: TokenStore)
    ensures user !in r
    ensures forall u :: u != user ==> (u in r <==> u in s) && (u in s ==> r[u] == s[u])
  {
    s - {user}
  }

  /** Disconnecting twice is disconnecting once. */
  lemma DisconnectIdempotent(s: TokenStore, user: UserId)
    ensures Disconnect(Disconnect(s, user), user) == Disconnect(s, user)
  {
  }

  /** The consent URL's parameters: offline access, forced consent, the user id as state.
      A missing `redirect_uri` query parameter is written as the text "null". */
  function AuthUrl(clientId: string, redirectUri: Option<string>, user: UserId): AuthUrlParams {
    AuthUrlParams(clientId, if redirectUri.Some? then redirectUri.value else "null",
                  "code", CalendarScope, "offline", "consent", user)
  }

  function QueryParam(q: map<string, string>, name: string): Option<string> {
    if name in q then Some(q[name]) else None
  }

  /** A query parameter, or `fallback` when it is missing or empty (`get(name) || fallback`). */
  function QueryOr(q: map<string, string>, name: string, fallback: string): string {
    if name in q && q[name] != "" then q[name] else fallback
  }

  function TimeParam(q: map<string, string>, name: string, fallback: int): TimeArg {
    if name in q && q[name] != "" then Given(q[name]) else At(fallback)
  }

  /** The actions that need a valid access token before calling the calendar API. */
  predicate IsCalendarAction(a: string) {
    a == "list-calendars" || a == "list-events" || a == "create-event" || a == "delete-event"
  }

  /** The calendar API request for a calendar action. `list-events` defaults an empty or
      missing calendar to "primary" and the window to the next 30 days; `create-event` and
      `delete-event` default the calendar only when the body leaves it out. */
  function RemoteCallFor(action: string, bearer: string, req: CalendarRequest, now: int): RemoteCall
    requires IsCalendarAction(action)
  {
    var bodyCalendar := if req.body.calendarId.Some? then req.body.calendarId.value else DefaultCalendar;
    if action == "list-calendars" then ListCalendars(bearer)
    else if action == "list-events" then
      ListEvents(bearer, QueryOr(req.query, "calendarId", DefaultCalendar),
                 TimeParam(req.query, "timeMin", now), TimeParam(req.query, "timeMax", now + ListWindowMillis))
    else if action == "create-event" then InsertEvent(bearer, bodyCalendar, req.body.event)
    else RemoveEvent(bearer, bodyCalendar, req.body.eventId)
  }

  /** The dispatch after authentication, in the order the function tests the action. */
  function HandleAction(s: TokenStore, user: UserId, req: CalendarRequest, env: Env): (r: Outcome)
    ensures forall u :: u != user ==> (u in r.store <==> u in s) && (u in s ==> r.store[u] == s[u])
  {
    if req.action == Some("auth-url") then
      Outcome(s, Response(200, AuthUrlBody(AuthUrl(env.clientId, QueryParam(req.query, "redirect_uri"), user))), [])
    else if req.action == Some("exchange-code") then
      ExchangeCode(s, user, req.body, env)
    else if req.action == Some("status") then
      var l := GetValidToken(s, user, env.now, env.refreshReply, env.readFails, env.updateFails);
      Outcome(l.store, Response(200, StatusBody(Truthy(l.token))), l.calls)
    else if req.action == Some("disconnect") then
      Outcome(if env.deleteFails then s else Disconnect(s, user), Response(200, SuccessBody), [])
    else if req.action.Some? && IsCalendarAction(req.action.value) then
      var l := GetValidToken(s, user, env.now, env.refreshReply, env.readFails, env.updateFails);
      if !Truthy(l.token) then Outcome(l.store, Response(401, ErrorBody(NotConnectedMessage)), l.calls)
      else
        var call := RemoteCallFor(req.action.value, l.token.value, req, env.now);
        var body := if req.action.value == "delete-event" then SuccessBody else Relayed(env.remoteBody);
        Outcome(l.store, Response(200, body), l.calls + [CalendarCall(call)])
    else Outcome(s, Response(400, ErrorBody(UnknownActionMessage)), [])
  }

  /** One request. A missing header or an unresolvable user is thrown inside the `try`,
      so it ends in the catch-all with status 500, before any store access. */
  function Handle(s: TokenStore, req: CalendarRequest, env: Env): (r: Outcome)
    ensures !Truthy(req.authHeader) ==> r == Outcome(s, Response(500, ErrorBody(MissingHeaderMessage)), [])
    ensures Truthy(req.authHeader) && env.authUser.None? ==>
      r == Outcome(s, Response(500, ErrorBody(UnauthorizedMessage)), [])
    ensures forall u :: env.authUser != Some(u) ==>
      (u in r.store <==> u in s) && (u in s ==> r.store[u] == s[u])
    ensures r.response.status in {200, 400, 401, 500}
  {
    if !Truthy(req.authHeader) then Outcome(s, Response(500, ErrorBody(MissingHeaderMessage)), [])
    else
      match env.authUser
      case None => Outcome(s, Response(500, ErrorBody(UnauthorizedMessage)), [])
      case Some(user) => HandleAction(s, user, req, env)
  }

  /** `status` reports connected exactly when `getValidToken` yields a token. */
  lemma StatusMeansValidToken(s: TokenStore, req: CalendarRequest, env: Env, user: UserId)
    requires Truthy(req.authHeader) && env.authUser == Some(user) && req.action == Some("status")
    ensures Handle(s, req, env).response
      == Response(200, StatusBody(Truthy(GetValidToken(s, user, env.now, env.refreshReply, env.readFails, env.updateFails).token)))
  {
  }

  /** Without a token, every calendar action answers 401 and never reaches the calendar API. */
  lemma NotConnectedNoRemoteCall(s: TokenStore, req: CalendarRequest, env: Env, user: UserId)
    requires Truthy(req.authHeader) && env.authUser == Some(user)
    requires req.action.Some? && IsCalendarAction(req.action.value)
    requires !Truthy(GetValidToken(s, user, env.now, env.refreshReply, env.readFails, env.updateFails).token)
    ensures Handle(s, req, env).response == Response(401, ErrorBody(NotConnectedMessage))
    ensures forall k :: 0 <= k < |Handle(s, req, env).calls| ==> !Handle(s, req, env).calls[k].CalendarCall?
  {
  }

  /** A store error while reading the row counts as not connected, even when a live
      credential exists: `status` says so and a calendar action answers 401, with no request. */
  lemma UnreadableRowNotConnected(s: TokenStore, req: CalendarRequest, env: Env, user: UserId)
    requires Truthy(req.authHeader) && env.authUser == Some(user) && env.readFails
    requires req.action == Some("status") || (req.action.Some? && IsCalendarAction(req.action.value))
    ensures Handle(s, req, env).store == s && Handle(s, req, env).calls == []
    ensures req.action == Some("status") ==> Handle(s, req, env).response == Response(200, StatusBody(false))
    ensures req.action != Some("status") ==> Handle(s, req, env).response == Response(401, ErrorBody(NotConnectedMessage))
  {
  }

  /** An unknown or missing action answers 400, writes nothing and calls nobody. */
  lemma UnknownActionRejected(s: TokenStore, req: CalendarRequest, env: Env)
    requires Truthy(req.authHeader) && env.authUser.Some?
    requires req.action.None? ||
      (req.action.value !in {"auth-url", "exchange-code", "status", "disconnect"} && !IsCalendarAction(req.action.value))
    ensures Handle(s, req, env) == Outcome(s, Response(400, ErrorBody(UnknownActionMessage)), [])
  {
  }

  /** After a disconnect whose delete went through, there is no token, so `status` says
      not connected, without any request to the provider. */
  lemma DisconnectThenNotConnected(s: TokenStore, req: CalendarRequest, env: Env, user: UserId,
                                   status: CalendarRequest)
    requires Truthy(req.authHeader) && env.authUser == Some(user) && !env.deleteFails
    requires req.action == Some("disconnect")
    requires Truthy(status.authHeader) && status.action == Some("status")
    ensures var after := Handle(s, req, env);
      && after.response == Response(200, SuccessBody)
      && Handle(after.store, status, env) == Outcome(after.store, Response(200, StatusBody(false)), [])
  {
  }

  /** A fresh exchange is served from the store, whenever the row can be read, until it
      expires: no refresh, no write. */
  lemma ExchangedTokenServedUntilExpiry(s: TokenStore, user: UserId, body: RequestBody, env: Env,
                                        later: int, refresh: TokenReply, updateFails: bool)
    requires env.codeReply.Tokens? && !env.upsertFails
    requires env.now <= later < env.now + env.codeReply.expiresIn * SecondMillis
    ensures var stored := ExchangeCode(s, user, body, env).store;
      GetValidToken(stored, user, later, refresh, false, updateFails)
        == Lookup(stored, Some(env.codeReply.accessToken), [])
  {
  }

  /** A successful refresh with a positive lifetime moves the expiry strictly later and
      keeps the refresh token; asking again at the same instant needs no second refresh. */
  lemma RefreshExtendsExpiry(s: TokenStore, user: UserId, now: int, refresh: TokenReply,
                             again: TokenReply)
    requires user in s && s[user].expiresAt <= now
    requires refresh.Tokens? && 0 < refresh.expiresIn
    ensures var l := GetValidToken(s, user, now, refresh, false, false);
      && s[user].expiresAt < l.store[user].expiresAt
      && l.store[user].refreshToken == s[user].refreshToken
      && GetValidToken(l.store, user, now, again, false, false) == Lookup(l.store, l.token, [])
  {
  }

  /** A failed refresh, like a failed read, yields no token and keeps the stored
      credential, refresh token included, unchanged. */
  lemma FailedRefreshKeepsCredential(s: TokenStore, user: UserId, now: int, refresh: TokenReply,
                                     readFails: bool, updateFails: bool)
    requires user in s && s[user].expiresAt <= now && refresh.TokenError?
    ensures var l := GetValidToken(s, user, now, refresh, readFails, updateFails);
      && l.token.None? && user in l.store && l.store[user] == s[user]
  {
  }

  /** `list-events` with no query parameters lists the primary calendar for the next 30 days. */
  lemma ListEventsDefaults(s: TokenStore, req: CalendarRequest, env: Env, user: UserId, bearer: string)
    requires Truthy(req.authHeader) && env.authUser == Some(user) && req.action == Some("list-events")
    requires req.query == map[]
    requires GetValidToken(s, user, env.now, env.refreshReply, env.readFails, env.updateFails).token == Some(bearer)
    requires bearer != ""
    ensures var r := Handle(s, req, env);
      && r.response == Response(200, Relayed(env.remoteBody))
      && r.calls[|r.calls| - 1]
         == CalendarCall(ListEvents(bearer, DefaultCalendar, At(env.now), At(env.now + ListWindowMillis)))
  {
  }
}
