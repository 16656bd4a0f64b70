/**
 * The HTTP wrapper every resource call goes through: it merges the request
 * headers, attaches the bearer token, and turns a non-ok response into an
 * error. The network call itself is a parameter.
 *
 * Header names are compared exactly, as keys of a plain object are.
 */
module ApiClient {
  import opened LibraryTypes

  type Headers = map<string, string>

  /** The request options a caller may pass; other options travel unchanged. */
  datatype RequestOptions = RequestOptions(httpMethod: Option<string>, headers: Option<Headers>, body: Option<string>)

  function CallerHeaders(options: RequestOptions): Headers {
    if options.headers.Some? then options.headers.value else map[]
  }

  /**
   * The merged headers: a JSON content type by default, then the caller's
   * headers over it, then the bearer token over those.
   */
  function MergeHeaders(caller: Headers, accessToken: Option<string>): (h: Headers)
    ensures h.Keys == caller.Keys + {"Content-Type"} + (if HasToken(accessToken) then {"Authorization"} else {})
    ensures "Content-Type" !in caller ==> h["Content-Type"] == "application/json"
    ensures HasToken(accessToken) ==> h["Authorization"] == "Bearer " + accessToken.value
    ensures forall k :: k in caller && !(k == "Authorization" && HasToken(accessToken)) ==> h[k] == caller[k]
  {
    map["Content-Type" := "application/json"] + caller +
    (if HasToken(accessToken) then map["Authorization" := "Bearer " + accessToken.value] else map[])
  }

  /** A caller's content type wins over the default. */
  lemma CallerContentTypeWins(caller: Headers, accessToken: Option<string>)
    requires "Content-Type" in caller
    ensures MergeHeaders(caller, accessToken)["Content-Type"] == caller["Content-Type"]
  {
  }

  /**
   * Without a token no Authorization header is invented, and a caller's own
   * Authorization header is passed through; with one, the token replaces it.
   */
  lemma AuthorizationRule(caller: Headers, accessToken: Option<string>)
    ensures var h := MergeHeaders(caller, accessToken);
      ("Authorization" in h <==> HasToken(accessToken) || "Authorization" in caller) &&
      (!HasToken(accessToken) && "Authorization" in caller ==> h["Authorization"] == caller["Authorization"]) &&
      (HasToken(accessToken) ==> h["Authorization"] == "Bearer " + accessToken.value)
  {
  }

  /** The request configuration: the caller's options with only the headers replaced. */
  function BuildConfig(options: RequestOptions, accessToken: Option<string>): (config: RequestOptions)
    ensures config.httpMethod == options.httpMethod && config.body == options.body
    ensures config.headers == Some(MergeHeaders(CallerHeaders(options), accessToken))
  {
    options.(headers := Some(MergeHeaders(CallerHeaders(options), accessToken)))
  }

  datatype Response = Response(ok: bool, statusText: string, body: string)

  datatype ApiResult = Body(json: string) | ApiError(message: string)

  /** A non-ok response raises "API error: " and the status text; an ok one yields its body. */
  function HandleResponse(response: Response): (r: ApiResult)
    ensures response.ok <==> r.Body?
    ensures response.ok ==> r.json == response.body
    ensures !response.ok ==> r.message == "API error: " + response.statusText
  {
    if !response.ok then ApiError("API error: " + response.statusText) else Body(response.body)
  }

  /** `apiClient`: send the built configuration through `fetch` and check the response. */
  function Call(endpoint: string, options: RequestOptions, accessToken: Option<string>,
                fetch: (string, RequestOptions) -> Response): (r: ApiResult)
    ensures var sent := fetch(endpoint, BuildConfig(options, accessToken));
      r.Body? <==> sent.ok
  {
    HandleResponse(fetch(endpoint, BuildConfig(options, accessToken)))
  }
}
