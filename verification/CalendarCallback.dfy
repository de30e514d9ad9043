/** The OAuth redirect page: reads `code`/`error` from the query string, sends the code
    to the broker's `exchange-code` action, and shows success or failure. */
module CalendarCallback {
  import opened Common
  import opened Records
  import CalendarBroker

  const CallbackPath: string := "/calendar-callback"

  /** The redirect URI the page sends; the connect button requests the consent URL with the same one. */
  function RedirectUri(origin: string): string {
    origin + CallbackPath
  }

  datatype Status = Loading | Success | Failure

  /** The signed-in session; only its bearer token is used. */
  datatype Session = Session(accessToken: string)

  /** The `exchange-code` request the page sends. */
  datatype ExchangeRequest = ExchangeRequest(bearer: string, code: string, redirectUri: string)

  /** The page's status, the request it sent (if any), and the delay before it navigates home. */
  datatype CallbackResult = CallbackResult(status: Status, exchange: Option<ExchangeRequest>, homeAfterMs: int)

  /** Whether the JSON answer has a truthy `success` field: only the broker's success body does. */
  predicate ReportsSuccess(reply: Option<CalendarBroker.Response>) {
    reply.Some? && reply.value.body.SuccessBody?
  }

  /** `handleCallback`. `reply` is the broker's answer, absent when the request itself failed. */
  function HandleCallback(code: Option<string>, error: Option<string>, session: Option<Session>,
                          origin: string, reply: Option<CalendarBroker.Response>): (r: CallbackResult)
    ensures r.status != Loading
    ensures Truthy(error) ==> r == CallbackResult(Failure, None, 3000)
    ensures !Truthy(error) && !Truthy(code) ==> r == CallbackResult(Failure, None, 0)
    ensures !Truthy(error) && Truthy(code) && session.None? ==> r == CallbackResult(Failure, None, 3000)
    ensures r.exchange.Some? <==> !Truthy(error) && Truthy(code) && session.Some?
    ensures r.exchange.Some? ==>
      r.exchange.value == ExchangeRequest(session.value.accessToken, code.value, RedirectUri(origin))
    ensures r.status == Success <==> r.exchange.Some? && ReportsSuccess(reply)
  {
    if Truthy(error) then CallbackResult(Failure, None, 3000)
    else if !Truthy(code) then CallbackResult(Failure, None, 0)
    else match session
      case None => CallbackResult(Failure, None, 3000)
      case Some(sess) =>
        var req := ExchangeRequest(sess.accessToken, code.value, RedirectUri(origin));
        if ReportsSuccess(reply) then CallbackResult(Success, Some(req), 2000)
        else CallbackResult(Failure, Some(req), 3000)
  }

  /** End to end: when the page's request reaches the broker, the page shows success exactly
      when the broker stored a credential for the user with the provider's access token. */
  lemma CallbackSuccessIffCredentialStored(code: string, sess: Session, origin: string,
                                           s: CalendarBroker.TokenStore, env: CalendarBroker.Env,
                                           user: UserId, other: CalendarBroker.RequestBody)
    requires code != "" && sess.accessToken != "" && env.authUser == Some(user)
    ensures var req := CalendarBroker.CalendarRequest(
                         Some("Bearer " + sess.accessToken), Some("exchange-code"), map[],
                         other.(code := code, redirectUri := RedirectUri(origin)));
      var out := CalendarBroker.Handle(s, req, env);
      var page := HandleCallback(Some(code), None, Some(sess), origin, Some(out.response));
      && (page.status == Success <==> env.codeReply.Tokens? && !env.upsertFails)
      && (page.status == Success ==>
           user in out.store && out.store[user].accessToken == env.codeReply.accessToken)
      && (page.status == Failure ==> out.store == s)
      && out.calls == [CalendarBroker.CodeGrant(code, RedirectUri(origin))]
  {
  }
}
