/**
 * The Next.js route `POST /api/chat` (frontend-react/app/api/chat/route.ts):
 * with NEXT_PUBLIC_API_URL set it forwards the message to the backend and
 * relays the backend's answer; unset, it answers with a configuration error.
 * `backendUrl` is the variable ("" when unset), `backend` the `fetch` round
 * trip. Errors thrown inside the `try` go through the shared classification.
 */
module ChatRoute {
  import opened Wrappers
  import opened JsString
  import opened Http
  import ProviderErrors
  import TokenAuth
  import AuthMiddleware

  const ConfigErrorText :=
    "Backend configuration error. NEXT_PUBLIC_API_URL environment variable is not set in Vercel. "
    + "Please set it to your Railway backend URL."
  const ConfigHintText := "Set NEXT_PUBLIC_API_URL in Vercel Dashboard \U{2192} Settings \U{2192} Environment Variables"

  /** `await req.json()`: the `message` field, or the error it throws on a body that is not JSON. */
  datatype RequestJson = Parsed(message: JsonField) | Unparseable(errorMessage: string)

  /** The `fetch` the route makes: URL, Authorization header and the forwarded `message`. */
  datatype BackendRequest = BackendRequest(url: string, authorization: string, message: JsonField)

  /** The backend's status and JSON body, or the message of what `fetch` or `.json()` threw. */
  datatype BackendReply = Replied(status: int, data: Body) | Failed(errorMessage: string)

  /** What the route sent to the backend, if anything, and what it answered. */
  datatype RouteResult = RouteResult(forwarded: Option<BackendRequest>, response: HttpResponse)

  /** The forwarded Authorization header: `token ? \`Bearer ${token}\` : ''`. */
  function ForwardedAuthorization(token: Option<string>): (header: string)
    ensures header == "" <==> token.None?
    ensures token.Some? ==> StartsWith(header, TokenAuth.BearerPrefix) && header[|TokenAuth.BearerPrefix|..] == token.value
  {
    match token
    case None => ""
    case Some(t) => TokenAuth.BearerPrefix + t
  }

  function Post(backendUrl: string, header: Option<string>, json: RequestJson, backend: BackendRequest -> BackendReply): (r: RouteResult)
    ensures r.forwarded.Some? <==> backendUrl != "" && json.Parsed?
    ensures backendUrl == "" ==> r.response == HttpResponse(500, ConfigErrorBody(ConfigErrorText, ConfigHintText))
    ensures r.forwarded.Some? ==>
      r.forwarded.value == BackendRequest(backendUrl + "/api/chat",
        ForwardedAuthorization(TokenAuth.TokenFromHeader(header)), json.message)
    ensures r.forwarded.Some? && backend(r.forwarded.value).Replied? ==>
      r.response == HttpResponse(backend(r.forwarded.value).status, backend(r.forwarded.value).data)
    ensures r.forwarded.Some? && backend(r.forwarded.value).Failed? ==>
      r.response == ProviderErrors.Classify(backend(r.forwarded.value).errorMessage)
    ensures backendUrl != "" && json.Unparseable? ==> r.response == ProviderErrors.Classify(json.errorMessage)
  {
    if backendUrl == "" then
      RouteResult(None, HttpResponse(500, ConfigErrorBody(ConfigErrorText, ConfigHintText)))
    else
      var token := TokenAuth.TokenFromHeader(header);
      match json
      case Unparseable(e) => RouteResult(None, ProviderErrors.Classify(e))
      case Parsed(message) =>
        var request := BackendRequest(backendUrl + "/api/chat", ForwardedAuthorization(token), message);
        match backend(request)
        case Replied(status, data) => RouteResult(Some(request), HttpResponse(status, data))
        case Failed(e) => RouteResult(Some(request), ProviderErrors.Classify(e))
  }

  /**
   * The backend's `auth` middleware reads from the forwarded header the very
   * token the route read from its own; with none, it reads "" and denies.
   */
  lemma BackendSeesSameToken(header: Option<string>)
    ensures AuthMiddleware.HeaderToken(Some(ForwardedAuthorization(TokenAuth.TokenFromHeader(header))))
      == TokenAuth.TokenFromHeader(header).GetOr("")
  {
    match TokenAuth.TokenFromHeader(header)
    case None =>
      assert RemoveFirst("", TokenAuth.BearerPrefix) == "";
    case Some(t) =>
      TokenAuth.BearerHeaderToken(t);
  }

  /** A request with `Bearer t` reaches the backend with `Bearer t`, verified or not. */
  lemma TokenForwardedUnverified(backendUrl: string, t: string, message: JsonField, backend: BackendRequest -> BackendReply)
    requires backendUrl != "" && t != ""
    ensures Post(backendUrl, Some(TokenAuth.BearerPrefix + t), Parsed(message), backend).forwarded
      == Some(BackendRequest(backendUrl + "/api/chat", TokenAuth.BearerPrefix + t, message))
  {
    TokenAuth.BearerHeaderToken(t);
  }

  /** Whatever the backend answers, status and body reach the client unchanged. */
  lemma ProxyPassesThrough(backendUrl: string, header: Option<string>, message: JsonField, status: int, data: Body)
    requires backendUrl != ""
    ensures Post(backendUrl, header, Parsed(message), _ => Replied(status, data)).response == HttpResponse(status, data)
  {
  }

  /** Without NEXT_PUBLIC_API_URL nothing is forwarded, whatever the request. */
  lemma UnconfiguredNeverForwards(header: Option<string>, json: RequestJson, backend: BackendRequest -> BackendReply)
    ensures Post("", header, json, backend).forwarded.None?
    ensures Post("", header, json, backend).response.status == 500
  {
  }
}
