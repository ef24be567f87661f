/** The proxy dispatcher: the gate every proxied call passes (`/sse` and the
    JSON tool routes share it), the forward it makes with the bearer
    credential, the answer it relays, and the OAuth callback that starts the
    record. Each handler is a pure function of the record and of the replies
    the token endpoint and the upstream API give. */
module Proxy {
  import opened Wrappers
  import opened JsValue
  import opened Credentials

  /** The proxied routes: the event stream, and a JSON tool call posting a
      request body to an upstream path (`/tools/list`, `/tools/call`). */
  datatype Route = EventStream | ToolCall(path: string, body: Option<Value>)

  /** The one upstream request a proxied call makes. */
  datatype Forward = Forward(verb: string, path: string, authorization: string, payload: Option<Value>)

  /** What the upstream API did: the request failed outright, or it answered
      with a status, whether a body stream is present, and the body text
      (`None` when reading it failed). */
  datatype UpstreamReply =
    | UpstreamDown
    | Upstream(ok: bool, status: int, hasBody: bool, text: Option<string>)

  /** The error a handler's `catch` turned into a 500. */
  datatype Fault = TokenFault(error: TokenError) | UpstreamUnreachable | UpstreamUnreadable

  /** What the client is sent. */
  datatype Answer =
    | MissingCode                       // callback without a code
    | TokensSaved                       // callback whose exchange succeeded
    | Unauthenticated                   // no access token yet
    | ServerError(fault: Fault)
    | Relayed(status: int, text: string) // the upstream's status and text
    | Streaming                         // the upstream event stream, piped

  /** The HTTP status the client receives: the upstream's own status for a
      relayed reply, a 2xx for a saved token and an opened stream, a 4xx for
      a missing code or credential, and 500 for every caught error. */
  function StatusCode(a: Answer): (r: int)
    ensures a.Relayed? ==> r == a.status
    ensures !a.Relayed? ==> (200 <= r < 300 <==> a == TokensSaved || a == Streaming)
    ensures a == MissingCode || a == Unauthenticated ==> 400 <= r < 500
    ensures a == MissingCode ==> r == 400
    ensures a == Unauthenticated ==> r == 401
    ensures a == TokensSaved || a == Streaming ==> r == 200
    ensures a.ServerError? <==> !a.Relayed? && r == 500
  {
    match a
    case MissingCode => 400
    case TokensSaved => 200
    case Unauthenticated => 401
    case ServerError(_) => 500
    case Relayed(status, _) => status
    case Streaming => 200  // Express's default: the upstream 2xx is not copied
  }

  /** One handled inbound request: the record after it, the token request it
      made, the upstream request it made, and the answer. */
  datatype Handled = Handled(store: Value, call: TokenCall, forward: Option<Forward>, answer: Answer)

  /** The upstream request for a route, carrying `Bearer <access_token>`; a
      tool call posts `req.body || {}`. */
  function UpstreamRequest(route: Route, authorization: string): (r: Forward)
    ensures r.authorization == authorization
    ensures route.EventStream? ==> r.verb == "GET" && r.path == "/stream" && r.payload.None?
    ensures route.ToolCall? ==> r.verb == "POST" && r.path == route.path && r.payload.Some?
    ensures route.ToolCall? && TruthyField(route.body) ==> r.payload == route.body
    ensures route.ToolCall? && !TruthyField(route.body) ==> r.payload == Some(Obj(map[]))
  {
    match route
    case EventStream => Forward("GET", "/stream", authorization, None)
    case ToolCall(path, body) =>
      Forward("POST", path, authorization, Some(if TruthyField(body) then body.value else Obj(map[])))
  }

  /** The answer for an upstream reply. The stream is piped when the upstream
      is ok and has a body; otherwise its status is sent with its text, or
      "Upstream stream error" when the text is empty or unreadable. A tool
      call sends the upstream status and text, or fails if the text cannot be
      read. */
  function Relay(route: Route, upstream: UpstreamReply): (a: Answer)
    ensures upstream.UpstreamDown? ==> a == ServerError(UpstreamUnreachable)
    ensures upstream.Upstream? && route.EventStream? ==>
              (a == Streaming <==> upstream.ok && upstream.hasBody)
              && (a != Streaming ==>
                    a == Relayed(upstream.status,
                                 if upstream.text.Some? && upstream.text.value != "" then upstream.text.value
                                 else "Upstream stream error"))
    ensures upstream.Upstream? && route.ToolCall? && upstream.text.Some? ==> a == Relayed(upstream.status, upstream.text.value)
    ensures upstream.Upstream? && route.ToolCall? && upstream.text.None? ==> a == ServerError(UpstreamUnreadable)
  {
    match upstream
    case UpstreamDown => ServerError(UpstreamUnreachable)
    case Upstream(ok, status, hasBody, text) =>
      match route
      case EventStream =>
        if ok && hasBody then Streaming
        else
          var txt := if text.Some? then text.value else "";
          Relayed(status, if txt != "" then txt else "Upstream stream error")
      case ToolCall(_, _) =>
        if text.None? then ServerError(UpstreamUnreadable) else Relayed(status, text.value)
  }

  /** A proxied call (`/sse` or `proxyJson`): 401 without a truthy access
      token; otherwise refresh if needed, 500 if that fails, and otherwise one
      upstream request with the record's current access token, whose reply is
      relayed. */
  function Handle(store: Value, clock: Clock, tokenReply: TokenReply, route: Route, upstream: UpstreamReply,
                  stamping: Stamping): (h: Handled)
    ensures h.answer == Unauthenticated <==> !TruthyField(Get(store, "access_token"))
    ensures h.answer == Unauthenticated ==> h.store == store && h.call == NoCall && h.forward == None
    ensures TruthyField(Get(store, "access_token")) ==>
              h.store == RefreshIfNeeded(store, clock, tokenReply, stamping).store
              && h.call == RefreshIfNeeded(store, clock, tokenReply, stamping).call
    ensures h.forward.None? <==> h.answer == Unauthenticated || (h.answer.ServerError? && h.answer.fault.TokenFault?)
    ensures h.answer.ServerError? && h.answer.fault.TokenFault? ==>
              RefreshIfNeeded(store, clock, tokenReply, stamping).error == Some(h.answer.fault.error) && h.store == store
    ensures TruthyField(Get(store, "access_token")) && RefreshIfNeeded(store, clock, tokenReply, stamping).error.Some? ==>
              h.forward.None?
              && h.answer == ServerError(TokenFault(RefreshIfNeeded(store, clock, tokenReply, stamping).error.value))
    ensures h.forward.Some? ==>
              h.forward.value == UpstreamRequest(route, "Bearer " + JsStringOf(Get(h.store, "access_token")))
              && h.answer == Relay(route, upstream)
  {
    if !TruthyField(Get(store, "access_token")) then
      Handled(store, NoCall, None, Unauthenticated)
    else
      var t := RefreshIfNeeded(store, clock, tokenReply, stamping);
      if t.error.Some? then
        Handled(t.store, t.call, None, ServerError(TokenFault(t.error.value)))
      else
        var authorization := "Bearer " + JsStringOf(Get(t.store, "access_token"));
        Handled(t.store, t.call, Some(UpstreamRequest(route, authorization)), Relay(route, upstream))
  }

  /** `GET /oauth/callback?code=…`: 400 without a truthy code and no token
      request; otherwise the code exchange, answered 200 when it succeeds and
      500 when it fails. */
  function Callback(store: Value, code: Option<Value>, clock: Clock, reply: TokenReply, stamping: Stamping): (h: Handled)
    ensures h.forward == None
    ensures h.answer == MissingCode <==> !TruthyField(code)
    ensures !TruthyField(code) ==> h.store == store && h.call == NoCall && StatusCode(h.answer) == 400
    ensures TruthyField(code) ==>
              && h.call == Called(TokenRequest("authorization_code", JsString(code.value)))
              && h.store == ExchangeCode(store, code.value, clock, reply, stamping).store
              && (StatusCode(h.answer) == 200 <==> ReadToken(reply).Success?)
              && (ReadToken(reply).Failure? ==> h.answer == ServerError(TokenFault(ReadToken(reply).error)) && h.store == store)
  {
    if !TruthyField(code) then
      Handled(store, NoCall, None, MissingCode)
    else
      var t := ExchangeCode(store, code.value, clock, reply, stamping);
      if t.error.Some? then
        Handled(t.store, t.call, None, ServerError(TokenFault(t.error.value)))
      else
        Handled(t.store, t.call, None, TokensSaved)
  }

  // ---- Properties of the gate ------------------------------------------------------

  /** `/sse` and the tool routes share one credential gate: whatever the route
      and the upstream reply, the record, the token request and the bearer
      credential are the same. */
  lemma RoutesShareTheGate(store: Value, clock: Clock, tokenReply: TokenReply,
                           route1: Route, upstream1: UpstreamReply, route2: Route, upstream2: UpstreamReply,
                           stamping: Stamping)
    ensures Handle(store, clock, tokenReply, route1, upstream1, stamping).store == Handle(store, clock, tokenReply, route2, upstream2, stamping).store
    ensures Handle(store, clock, tokenReply, route1, upstream1, stamping).call == Handle(store, clock, tokenReply, route2, upstream2, stamping).call
    ensures Handle(store, clock, tokenReply, route1, upstream1, stamping).forward.Some?
            <==> Handle(store, clock, tokenReply, route2, upstream2, stamping).forward.Some?
    ensures Handle(store, clock, tokenReply, route1, upstream1, stamping).forward.Some? ==>
              Handle(store, clock, tokenReply, route1, upstream1, stamping).forward.value.authorization
              == Handle(store, clock, tokenReply, route2, upstream2, stamping).forward.value.authorization
  {
  }

  /** With a fresh token the call goes straight upstream with the stored
      access token and no token request. */
  lemma FreshTokenIsForwardedAsIs(store: Value, clock: Clock, tokenReply: TokenReply, route: Route, upstream: UpstreamReply,
                                  stamping: Stamping)
    requires !ExpiresSoon(store, clock.check)
    ensures Handle(store, clock, tokenReply, route, upstream, stamping).call == NoCall
    ensures Handle(store, clock, tokenReply, route, upstream, stamping).store == store
    ensures Handle(store, clock, tokenReply, route, upstream, stamping).forward
            == Some(UpstreamRequest(route, "Bearer " + JsString(Get(store, "access_token").value)))
  {
  }

  /** A call that failed on its refresh leaves the record such that the next
      call, at the same time or later, makes the same refresh request again. */
  lemma TokenFaultIsRetried(store: Value, clock: Clock, tokenReply: TokenReply, route: Route, upstream: UpstreamReply,
                            later: Clock, tokenReply': TokenReply, route': Route, upstream': UpstreamReply,
                            stamping: Stamping)
    requires Handle(store, clock, tokenReply, route, upstream, stamping).answer.ServerError?
    requires Handle(store, clock, tokenReply, route, upstream, stamping).answer.fault.TokenFault?
    requires clock.check <= later.check
    ensures Handle(store, clock, tokenReply, route, upstream, stamping).call.Called?
    ensures Handle(Handle(store, clock, tokenReply, route, upstream, stamping).store, later, tokenReply', route', upstream', stamping).call
            == Handle(store, clock, tokenReply, route, upstream, stamping).call
  {
    FailedRefreshIsRetried(store, clock, tokenReply, later, tokenReply', stamping);
  }

  // ---- A sequence of proxied calls -------------------------------------------------

  /** One proxied call with the clock and the replies it meets. */
  datatype Request = Request(clock: Clock, tokenReply: TokenReply, route: Route, upstream: UpstreamReply)

  /** The record after handling the calls one at a time, in order. */
  function Serve(store: Value, requests: seq<Request>, stamping: Stamping): Value
    decreases |requests|
  {
    if |requests| == 0 then store
    else
      var last := requests[|requests| - 1];
      Handle(Serve(store, requests[..|requests| - 1], stamping), last.clock, last.tokenReply, last.route, last.upstream, stamping).store
  }

  /** The token endpoint does not hand out a falsy access token: an accepted
      reply either omits `access_token` or gives a truthy one. */
  predicate KeepsAccessToken(reply: TokenReply) {
    ReadToken(reply).Success? ==>
      var body := Spread(ReadToken(reply).value);
      "access_token" in body ==> Truthy(body["access_token"])
  }

  /** Once authorized, proxied calls never lose the access token, so none of
      them is refused with 401, as long as no refresh reply replaces the
      access token with a falsy one. */
  lemma {:induction false} AuthorizationPersists(store: Value, requests: seq<Request>, stamping: Stamping)
    requires TruthyField(Get(store, "access_token"))
    requires forall i :: 0 <= i < |requests| ==> KeepsAccessToken(requests[i].tokenReply)
    ensures TruthyField(Get(Serve(store, requests, stamping), "access_token"))
    decreases |requests|
  {
    if |requests| > 0 {
      var prefix := requests[..|requests| - 1];
      var last := requests[|requests| - 1];
      AuthorizationPersists(store, prefix, stamping);
      var before := Serve(store, prefix, stamping);
      assert KeepsAccessToken(last.tokenReply);
      var t := RefreshIfNeeded(before, last.clock, last.tokenReply, stamping);
      if t.call.Called? && ReadToken(last.tokenReply).Success? {
        var body := Spread(ReadToken(last.tokenReply).value);
        assert "access_token" !in StampKeys;
        if "access_token" in body {
          assert t.store.fields["access_token"] == body["access_token"];
        } else {
          assert t.store.fields["access_token"] == before.fields["access_token"];
        }
      }
    }
  }
}
