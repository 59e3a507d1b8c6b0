/**
 * How the broker shapes what it sends to the SSO server: command URLs
 * (`generateCommandUrl`), the options of an outgoing HTTP request
 * (`makeRequest`), redirect locations (`redirect`) and the browser redirect
 * to the server's login page (`redirectToSsoServer`).
 *
 * `http_build_query` is not modelled: every function that needs it takes it
 * as the parameter `buildQuery`, so each property holds whatever query text it
 * produces. The value `getSessionId()` returns is likewise a parameter.
 */
module Commands {
  import opened Wrappers
  import Base64

  /** A PHP array of parameters, in insertion order. */
  type Params = seq<(string, string)>

  /** HTTP headers in the order they are listed. */
  type Headers = seq<(string, string)>

  /**
   * The path under which the server registers its SSO routes: the route group
   * prefix `api/sso` between the server URL and the command.
   */
  const ApiPath := "/api/sso/"

  /** The server route whose last path segment is the `{token}` parameter. */
  const LoginFromBrokersRoute := "brokers/login/"

  const DefaultRedirectStatus := 307

  // ---------------------------------------------------------------- generateCommandUrl

  /**
   * `generateCommandUrl`: the server URL, the API path and the command, then
   * `?` and the query text only when there are parameters.
   */
  function GenerateCommandUrl(serverUrl: string, command: string, params: Params, buildQuery: Params -> string): (r: string)
    ensures |serverUrl + ApiPath + command| <= |r|
    ensures r[..|serverUrl + ApiPath + command|] == serverUrl + ApiPath + command
    ensures r == serverUrl + ApiPath + command <==> params == []
    ensures params != [] ==> r[|serverUrl + ApiPath + command|..] == "?" + buildQuery(params)
  {
    var query := if params != [] then "?" + buildQuery(params) else "";
    serverUrl + ApiPath + command + query
  }

  /** Without parameters the command URL has a `?` only if the server URL or the command has one. */
  lemma CommandUrlWithoutParams(serverUrl: string, command: string, buildQuery: Params -> string)
    requires '?' !in serverUrl && '?' !in command
    ensures '?' !in GenerateCommandUrl(serverUrl, command, [], buildQuery)
  {
    var r := GenerateCommandUrl(serverUrl, command, [], buildQuery);
    assert r == serverUrl + ApiPath + command;
    assert '?' !in ApiPath;
  }

  // ---------------------------------------------------------------- makeRequest

  /** The body option of a Guzzle request. */
  datatype Body = FormParams(form: Params) | Query(query: Params) | NoBody

  /** The request `makeRequest` hands to the HTTP client. */
  datatype OutgoingRequest = OutgoingRequest(verb: string, url: string, body: Body, headers: Headers)

  /**
   * The `switch` of `makeRequest`: POST sends the parameters as form fields,
   * GET as the query string, any other method sends none. PHP compares the
   * method with `==`; for these non-numeric strings that is exact,
   * case-sensitive equality.
   */
  function RequestBody(verb: string, params: Params): (b: Body)
    ensures b == FormParams(params) <==> verb == "POST"
    ensures b == Query(params) <==> verb == "GET"
    ensures b == NoBody <==> verb != "POST" && verb != "GET"
  {
    match verb
    case "POST" => FormParams(params)
    case "GET" => Query(params)
    case _ => NoBody
  }

  /** The two headers every command carries. */
  function CommandHeaders(sessionId: string): (h: Headers)
    ensures |h| == 2
    ensures h[0] == ("Accept", "application/json")
    ensures h[1].0 == "Authorization" && |h[1].1| == 7 + |sessionId|
    ensures h[1].1[..7] == "Bearer " && h[1].1[7..] == sessionId
  {
    [("Accept", "application/json"), ("Authorization", "Bearer " + sessionId)]
  }

  /**
   * `makeRequest` up to the HTTP call: the command URL is built without
   * parameters (they travel in the body option), the headers are always the
   * same two.
   */
  function MakeRequest(serverUrl: string, verb: string, command: string, params: Params, sessionId: string): (r: OutgoingRequest)
    ensures r.verb == verb
    ensures r.url == serverUrl + ApiPath + command
    ensures r.headers == CommandHeaders(sessionId)
    ensures r.body == RequestBody(verb, params)
  {
    var url := GenerateCommandUrl(serverUrl, command, [], _ => "");
    OutgoingRequest(verb, url, RequestBody(verb, params), CommandHeaders(sessionId))
  }

  /**
   * The parameters of a command reach the server in exactly one place: in the
   * form body for POST, in the query option for GET, nowhere otherwise; the URL
   * itself carries no query.
   */
  lemma MakeRequestParamsTravelOnce(serverUrl: string, verb: string, command: string, params: Params, sessionId: string)
    requires '?' !in serverUrl && '?' !in command
    ensures var r := MakeRequest(serverUrl, verb, command, params, sessionId);
      && '?' !in r.url
      && (verb == "POST" ==> r.body.FormParams? && r.body.form == params)
      && (verb == "GET" ==> r.body.Query? && r.body.query == params)
      && (verb != "POST" && verb != "GET" ==> r.body.NoBody?)
  {
    CommandUrlWithoutParams(serverUrl, command, _ => "");
  }

  // ---------------------------------------------------------------- URL parts

  /** The part of `s` before the first `c`, or all of `s`. */
  function Before(s: string, c: char): (r: string)
    ensures |r| <= |s| && r == s[..|r|]
    ensures c !in r
    ensures |r| < |s| ==> s[|r|] == c
  {
    if s == "" || s[0] == c then "" else [s[0]] + Before(s[1..], c)
  }

  /** The part of `s` after the first `c`, if there is a `c`. */
  function After(s: string, c: char): (r: Option<string>)
    ensures r.None? <==> c !in s
    ensures r.Some? ==> |Before(s, c)| < |s| && r.value == s[|Before(s, c)| + 1..]
  {
    if s == "" then None else if s[0] == c then Some(s[1..]) else After(s[1..], c)
  }

  lemma {:induction false} BeforeAppend(s: string, c: char, t: string)
    requires c !in s
    ensures Before(s + [c] + t, c) == s
  {
    if s != "" {
      assert (s + [c] + t)[1..] == s[1..] + [c] + t;
      BeforeAppend(s[1..], c, t);
    }
  }

  /**
   * `parse_url($url, PHP_URL_QUERY)`: what follows the first `?`, up to a `#`;
   * absent when there is no `?` before the fragment.
   */
  function UrlQuery(url: string): (q: Option<string>)
    ensures q.Some? ==> '#' !in q.value
    ensures '?' !in url ==> q.None?
  {
    var beforeFragment := Before(url, '#');
    match After(beforeFragment, '?')
    case Some(query) => Some(query)
    case None => None
  }

  // ---------------------------------------------------------------- redirect

  /** The response `redirect` aborts with. */
  datatype Redirection = Redirection(status: int, location: string)

  /** The character that joins the parameters to `url`. */
  function QuerySeparator(url: string): (c: char)
    ensures c == '&' <==> Truthy(UrlQuery(url))
    ensures c == '?' <==> !Truthy(UrlQuery(url))
  {
    if Truthy(UrlQuery(url)) then '&' else '?'
  }

  /**
   * `redirect(url, parameters, status)`: the location is the URL itself when
   * there are no parameters, and otherwise the URL, the separator and the query
   * text; the status is the one asked for (`DefaultRedirectStatus` when the
   * caller gives none).
   */
  function Redirect(url: string, params: Params, status: int, buildQuery: Params -> string): (r: Redirection)
    ensures r.status == status
    ensures params == [] ==> r.location == url
    ensures params != [] ==> |r.location| > |url| && r.location[..|url|] == url
    ensures params != [] ==> r.location[|url|..] == [QuerySeparator(url)] + buildQuery(params)
  {
    var query := if params != [] then [QuerySeparator(url)] + buildQuery(params) else "";
    Redirection(status, url + query)
  }

  lemma {:induction false} BeforeAbsent(s: string, c: char)
    requires c !in s
    ensures Before(s, c) == s
  {
    if s != "" {
      BeforeAbsent(s[1..], c);
    }
  }

  /** The separator is `?` for a URL without a query and `&` for one with a truthy query and no fragment. */
  lemma SeparatorCases(url: string)
    ensures '?' !in url ==> QuerySeparator(url) == '?'
    ensures '#' !in url && Truthy(After(url, '?')) ==> QuerySeparator(url) == '&'
  {
    if '#' !in url {
      BeforeAbsent(url, '#');
    }
  }

  /** With parameters, the location is the URL, the separator and the query text. */
  lemma RedirectLocation(url: string, params: Params, status: int, buildQuery: Params -> string, c: char)
    requires params != [] && c == QuerySeparator(url)
    ensures Redirect(url, params, status, buildQuery).location == url + [c] + buildQuery(params)
  {
    var r := Redirect(url, params, status, buildQuery);
    assert r.location == url + r.location[|url|..];
  }

  /**
   * With the default status: a URL without `?` gets its parameters after `?`,
   * and a URL without `#` whose query is neither empty nor `"0"` gets them
   * after `&`.
   */
  lemma RedirectSeparator(url: string, params: Params, buildQuery: Params -> string)
    requires params != []
    ensures Redirect(url, params, DefaultRedirectStatus, buildQuery).status == 307
    ensures '?' !in url ==> Redirect(url, params, DefaultRedirectStatus, buildQuery).location == url + "?" + buildQuery(params)
    ensures '#' !in url && Truthy(After(url, '?'))
      ==> Redirect(url, params, DefaultRedirectStatus, buildQuery).location == url + "&" + buildQuery(params)
  {
    SeparatorCases(url);
    RedirectLocation(url, params, DefaultRedirectStatus, buildQuery, QuerySeparator(url));
  }

  // ---------------------------------------------------------------- redirectToSsoServer

  /** The redirect `redirectToSsoServer` returns: target URL, status and extra headers. */
  datatype AwayRedirect = AwayRedirect(url: string, status: int, headers: Headers)

  /**
   * `redirectToSsoServer(returnUrl)`: a 307 redirect to the server's
   * `brokers/login/{token}` route with the base64 encoding of the session id
   * as the token segment and the return URL as the only parameter, plus an
   * `Authorization` header that carries that same encoding.
   */
  function RedirectToSsoServer(serverUrl: string, sessionId: string, returnUrl: string, buildQuery: Params -> string): (r: AwayRedirect)
    requires Base64.IsByteString(sessionId)
    ensures r.status == 307
    ensures r.url == serverUrl + ApiPath + LoginFromBrokersRoute + Base64.Encode(sessionId) + "?" + buildQuery([("return_url", returnUrl)])
    ensures r.headers == [("Authorization", "Bearer " + Base64.Encode(sessionId))]
  {
    var encoded := Base64.Encode(sessionId);
    var url := GenerateCommandUrl(serverUrl, LoginFromBrokersRoute + encoded, [("return_url", returnUrl)], buildQuery);
    AwayRedirect(url, 307, [("Authorization", "Bearer " + encoded)])
  }

  /**
   * The `{token}` segment of a URL of the `brokers/login/{token}` route on
   * the server at `serverUrl`: what follows the route path, up to the query.
   */
  function TokenSegment(url: string, serverUrl: string): (t: Option<string>)
    ensures t.Some? ==> '?' !in t.value
  {
    var route := serverUrl + ApiPath + LoginFromBrokersRoute;
    if |route| <= |url| && url[..|route|] == route then Some(Before(url[|route|..], '?')) else None
  }

  /** A segment without `?` followed by a query is read back as the token. */
  lemma TokenSegmentOf(serverUrl: string, segment: string, query: string)
    requires '?' !in segment
    ensures TokenSegment(serverUrl + ApiPath + LoginFromBrokersRoute + segment + "?" + query, serverUrl) == Some(segment)
  {
    var route := serverUrl + ApiPath + LoginFromBrokersRoute;
    var url := route + segment + "?" + query;
    assert url == route + (segment + ['?'] + query);
    assert url[..|route|] == route && url[|route|..] == segment + ['?'] + query;
    BeforeAppend(segment, '?', query);
  }

  /** The token segment of the redirect is exactly the base64 encoding of the session id. */
  lemma RedirectTokenSegment(serverUrl: string, sessionId: string, returnUrl: string, buildQuery: Params -> string)
    requires Base64.IsByteString(sessionId)
    ensures TokenSegment(RedirectToSsoServer(serverUrl, sessionId, returnUrl, buildQuery).url, serverUrl)
      == Some(Base64.Encode(sessionId))
  {
    var encoded := Base64.Encode(sessionId);
    assert '?' !in encoded;
    TokenSegmentOf(serverUrl, encoded, buildQuery([("return_url", returnUrl)]));
  }

  /**
   * The redirect's `Authorization` header carries the encoded session id, not
   * the session id: for any non-empty session id the two bearer values differ.
   */
  lemma RedirectHeaderIsEncoded(serverUrl: string, sessionId: string, returnUrl: string, buildQuery: Params -> string)
    requires Base64.IsByteString(sessionId) && sessionId != ""
    ensures RedirectToSsoServer(serverUrl, sessionId, returnUrl, buildQuery).headers[0].1 != "Bearer " + sessionId
  {
    assert |Base64.Encode(sessionId)| > |sessionId|;
  }
}
