/** The calendar card on the dashboard: connection check, connect and disconnect, the
    event list, and the "add event" form that builds a one-hour event. */
module CalendarClient {
  import opened Common
  import opened Records
  import CalendarBroker
  import CalendarCallback

  /** Length of every event the form creates: one hour. */
  const HourMillis: int := 60 * 60 * 1000

  const DefaultTime: string := "09:00"

  datatype EventForm = EventForm(summary: string, description: string, date: string, time: string)

  /** The form after a reset: empty fields, nine o'clock. */
  const EmptyForm: EventForm := EventForm("", "", "", DefaultTime)

  /** An event's start as the calendar API returns it: a date-time, or a date for all-day events. */
  datatype EventTime = EventTime(dateTime: Option<string>, date: Option<string>)

  datatype CalendarEvent = CalendarEvent(id: string, summary: string, start: EventTime)

  datatype ClientState = ClientState(
    isConnected: bool,
    isLoading: bool,
    events: seq<CalendarEvent>,
    isAddingEvent: bool,
    form: EventForm)

  const InitialClient: ClientState := ClientState(false, true, [], false, EmptyForm)

  /** The redirect URI `connectGoogle` passes to the `auth-url` action. */
  function ConnectRedirectUri(origin: string): string {
    origin + "/calendar-callback"
  }

  /** The consent URL carries the connect button's redirect URI, which is the one the
      callback page later sends with the code, as the token endpoint requires. */
  lemma RedirectUrisAgree(s: CalendarBroker.TokenStore, req: CalendarBroker.CalendarRequest,
                          env: CalendarBroker.Env, origin: string)
    requires Truthy(req.authHeader) && env.authUser.Some? && req.action == Some("auth-url")
    requires req.query == map["redirect_uri" := ConnectRedirectUri(origin)]
    ensures ConnectRedirectUri(origin) == CalendarCallback.RedirectUri(origin)
    ensures CalendarBroker.Handle(s, req, env).response.body.AuthUrlBody?
    ensures CalendarBroker.Handle(s, req, env).response.body.params.redirectUri
      == CalendarCallback.RedirectUri(origin)
  {
  }

  /** The event title: prefixed with the child's name in brackets when a name is given. */
  function EventSummary(childName: Option<string>, summary: string): (r: string)
    ensures Truthy(childName) ==> r == "[" + childName.value + "] " + summary
    ensures !Truthy(childName) ==> r == summary
  {
    if Truthy(childName) then "[" + childName.value + "] " + summary else summary
  }

  /** The typed title is always the tail of the sent title; the prefix is the name alone. */
  lemma SummaryEndsWithTitle(childName: Option<string>, summary: string)
    ensures var r := EventSummary(childName, summary);
      && |summary| <= |r| && r[|r| - |summary|..] == summary
      && (Truthy(childName) ==> r[..|r| - |summary|] == "[" + childName.value + "] ")
  {
  }

  /** The outcome of pressing "add": the new state, the event sent (if any), whether the
      list is reloaded. */
  datatype CreateStep = CreateStep(state: ClientState, request: Option<CalendarBroker.EventPayload>, reloads: bool)

  /** `createEvent`. `start` is the instant parsed from the form's date and time (absent
      when they do not form a valid date, which makes the conversion throw); `createdId`
      is the `id` of the answer, absent when the answer has none. */
  function CreateEvent(st: ClientState, childName: Option<string>, session: Option<CalendarCallback.Session>,
                       start: Option<int>, createdId: Option<string>): (r: CreateStep)
    ensures st.form.summary == "" || st.form.date == "" ==> r == CreateStep(st, None, false)
    ensures r.request.Some? <==> st.form.summary != "" && st.form.date != "" && session.Some? && start.Some?
    ensures r.request.Some? ==>
      && r.request.value.start == start.value
      && r.request.value.end == start.value + HourMillis
      && r.request.value.summary == EventSummary(childName, st.form.summary)
      && r.request.value.description == st.form.description
    ensures r.reloads <==> r.request.Some? && Truthy(createdId)
    ensures r.reloads ==> r.state == st.(form := EmptyForm, isAddingEvent := false)
    ensures !r.reloads ==> r.state == st
  {
    if st.form.summary == "" || st.form.date == "" then CreateStep(st, None, false)
    else if session.None? || start.None? then CreateStep(st, None, false)
    else
      var event := CalendarBroker.EventPayload(EventSummary(childName, st.form.summary),
                                               st.form.description, start.value, start.value + HourMillis);
      if Truthy(createdId) then CreateStep(st.(form := EmptyForm, isAddingEvent := false), Some(event), true)
      else CreateStep(st, Some(event), false)
  }

  /** The event the form sends is inserted into the primary calendar exactly as built. */
  lemma ClientEventForwardedToPrimary(st: ClientState, childName: Option<string>, session: CalendarCallback.Session,
                                      start: int, createdId: Option<string>, s: CalendarBroker.TokenStore,
                                      env: CalendarBroker.Env, user: UserId, bearer: string,
                                      body: CalendarBroker.RequestBody)
    requires CreateEvent(st, childName, Some(session), Some(start), createdId).request.Some?
    requires session.accessToken != "" && env.authUser == Some(user)
    requires CalendarBroker.GetValidToken(s, user, env.now, env.refreshReply, env.readFails, env.updateFails).token == Some(bearer)
    requires bearer != ""
    ensures var ev := CreateEvent(st, childName, Some(session), Some(start), createdId).request.value;
      var req := CalendarBroker.CalendarRequest(Some("Bearer " + session.accessToken), Some("create-event"),
                                                map[], body.(calendarId := None, event := ev));
      var out := CalendarBroker.Handle(s, req, env);
      out.calls[|out.calls| - 1] == CalendarBroker.CalendarCall(CalendarBroker.InsertEvent(bearer, "primary", ev))
  {
  }

  /** `disconnectGoogle`: with a session, the request is sent and, whatever the answer, the
      card shows disconnected with no events; a request that fails to go out changes nothing. */
  function Disconnect(st: ClientState, session: Option<CalendarCallback.Session>, delivered: bool): (r: (ClientState, bool))
    ensures r.1 <==> session.Some?
    ensures session.Some? && delivered ==> r.0 == st.(isConnected := false, events := [])
    ensures session.None? || !delivered ==> r.0 == st
  {
    if session.None? then (st, false)
    else if delivered then (st.(isConnected := false, events := []), true)
    else (st, true)
  }

  /** `loadEvents`: the list is replaced when the answer carries `items` (even an empty
      array), and kept otherwise. */
  function LoadEvents(st: ClientState, session: Option<CalendarCallback.Session>,
                      items: Option<seq<CalendarEvent>>): (r: ClientState)
    ensures session.Some? && items.Some? ==> r == st.(events := items.value)
    ensures session.None? || items.None? ==> r == st
  {
    if session.Some? && items.Some? then st.(events := items.value) else st
  }

  /** `checkConnection`: the card stops loading in every case; with an answer it shows the
      answer's `connected` flag and loads the events when connected. */
  function CheckConnection(st: ClientState, session: Option<CalendarCallback.Session>,
                           reply: Option<CalendarBroker.Response>): (r: (ClientState, bool))
    ensures !r.0.isLoading
    ensures r.1 <==> session.Some? && reply.Some? && reply.value.body == CalendarBroker.StatusBody(true)
    ensures session.Some? && reply.Some? ==> (r.0.isConnected <==> r.1)
    ensures session.None? || reply.None? ==> r.0 == st.(isLoading := false)
  {
    if session.None? || reply.None? then (st.(isLoading := false), false)
    else
      var connected := reply.value.body == CalendarBroker.StatusBody(true);
      (st.(isConnected := connected, isLoading := false), connected)
  }

  /** Fed the broker's `status` answer, the card shows connected, and loads the events,
      exactly when the broker obtains a valid token for the user. */
  lemma CardShowsBrokerStatus(st: ClientState, session: CalendarCallback.Session,
                              s: CalendarBroker.TokenStore, req: CalendarBroker.CalendarRequest,
                              env: CalendarBroker.Env, user: UserId)
    requires Truthy(req.authHeader) && env.authUser == Some(user) && req.action == Some("status")
    ensures var shown := CheckConnection(st, Some(session), Some(CalendarBroker.Handle(s, req, env).response));
      && (shown.0.isConnected <==>
            Truthy(CalendarBroker.GetValidToken(s, user, env.now, env.refreshReply, env.readFails, env.updateFails).token))
      && (shown.1 <==> shown.0.isConnected)
  {
    CalendarBroker.StatusMeansValidToken(s, req, env, user);
  }

  /** After the card's disconnect reaches the broker and the row is deleted, the next
      connection check shows the card disconnected, with no events and nothing to load. */
  lemma DisconnectedCardStaysDisconnected(st: ClientState, session: CalendarCallback.Session,
                                          s: CalendarBroker.TokenStore, req: CalendarBroker.CalendarRequest,
                                          status: CalendarBroker.CalendarRequest,
                                          env: CalendarBroker.Env, user: UserId)
    requires Truthy(req.authHeader) && env.authUser == Some(user) && !env.deleteFails
    requires req.action == Some("disconnect")
    requires Truthy(status.authHeader) && status.action == Some("status")
    ensures var after := CalendarBroker.Handle(s, req, env);
      var cleared := Disconnect(st, Some(session), true).0;
      var shown := CheckConnection(cleared, Some(session), Some(CalendarBroker.Handle(after.store, status, env).response));
      && !shown.0.isConnected && shown.0.events == [] && !shown.1
  {
    CalendarBroker.DisconnectThenNotConnected(s, req, env, user, status);
  }

  /** Of two loads, the later answer carrying `items` decides the list; an answer without
      `items` never empties it. Nothing but the list ever changes. */
  lemma LatestItemsShown(st: ClientState, session: CalendarCallback.Session,
                         first: Option<seq<CalendarEvent>>, second: Option<seq<CalendarEvent>>)
    ensures LoadEvents(LoadEvents(st, Some(session), first), Some(session), second)
      == LoadEvents(st, Some(session), if second.Some? then second else first)
    ensures LoadEvents(st, Some(session), None).events == st.events
    ensures LoadEvents(st, Some(session), first).isConnected == st.isConnected
  {
  }

  /** Which start field an event's date text is formatted from. */
  datatype DateDisplay = Timed(iso: string) | AllDay(iso: string) | Blank

  /** `formatEventDate`'s choice: the date-time when present, else the all-day date, else nothing. */
  function DateDisplayOf(e: CalendarEvent): (r: DateDisplay)
    ensures r.Blank? <==> !Truthy(e.start.dateTime) && !Truthy(e.start.date)
    ensures r.Timed? <==> Truthy(e.start.dateTime)
    ensures r.Timed? ==> r.iso == e.start.dateTime.value
    ensures r.AllDay? ==> r.iso == e.start.date.value
  {
    if Truthy(e.start.dateTime) then Timed(e.start.dateTime.value)
    else if Truthy(e.start.date) then AllDay(e.start.date.value)
    else Blank
  }

  /** A timed event's display ignores its all-day date; without a date-time, the display
      falls back to the all-day date exactly when there is one. */
  lemma DateTimeTakesPrecedence(e: CalendarEvent, date: Option<string>)
    ensures Truthy(e.start.dateTime) ==>
      DateDisplayOf(e.(start := e.start.(date := date))) == DateDisplayOf(e)
    ensures DateDisplayOf(e.(start := EventTime(None, date))).AllDay? <==> Truthy(date)
    ensures DateDisplayOf(e.(start := EventTime(None, date))) != Blank ==>
      DateDisplayOf(e.(start := EventTime(None, date))) == AllDay(date.value)
  {
  }
}
