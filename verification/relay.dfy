/**
 * The server-side middleware `AddTokenToLoginFromBrokers`: on the
 * `brokers/login/{token}` route it turns the base64 token of the path into
 * the `Authorization: Bearer …` header every other command carries, then
 * passes the request on.
 *
 * Header names are kept as Symfony's header bag stores them, lower-cased, so
 * `Authorization` is the key `authorization`.
 */
module Relay {
  import Base64
  import Commands

  const AuthorizationHeader := "authorization"

  /** The route parameter the middleware reads. */
  const TokenParameter := "token"

  /**
   * The headers after the middleware: with a `token` route parameter the
   * `authorization` header is set (replacing any earlier value) to `Bearer `
   * and the decoded token; every other header keeps its value; without the
   * parameter nothing changes.
   */
  function RelayHeaders(headers: map<string, string>, routeParameters: map<string, string>): (r: map<string, string>)
    ensures TokenParameter in routeParameters
      ==> AuthorizationHeader in r && r[AuthorizationHeader] == "Bearer " + Base64.Decode(routeParameters[TokenParameter])
    ensures TokenParameter !in routeParameters ==> r == headers
    ensures r.Keys == headers.Keys + (if TokenParameter in routeParameters then {AuthorizationHeader} else {})
    ensures forall k :: k in headers && k != AuthorizationHeader ==> r[k] == headers[k]
  {
    if TokenParameter in routeParameters then
      headers[AuthorizationHeader := "Bearer " + Base64.Decode(routeParameters[TokenParameter])]
    else headers
  }

  /** The value the request had before does not matter: it is overwritten, not appended to. */
  lemma RelayOverwrites(headers: map<string, string>, routeParameters: map<string, string>, earlier: string)
    requires TokenParameter in routeParameters
    ensures RelayHeaders(headers[AuthorizationHeader := earlier], routeParameters) == RelayHeaders(headers, routeParameters)
  {
  }

  /**
   * A credential carried in the path as `base64_encode(x)` gives the same
   * headers as a request that sent `Authorization: Bearer x` itself.
   */
  lemma {:induction false} RelayMatchesDirectHeader(headers: map<string, string>, routeParameters: map<string, string>, x: string)
    requires Base64.IsByteString(x)
    ensures RelayHeaders(headers, routeParameters[TokenParameter := Base64.Encode(x)])
      == headers[AuthorizationHeader := "Bearer " + x]
  {
    Base64.DecodeEncode(x);
  }

  /**
   * End to end: the browser follows the broker's `redirectToSsoServer`
   * redirect, the route's `{token}` is the segment the broker wrote, and the
   * middleware hands the login handler `Authorization: Bearer <session id>`.
   */
  lemma BrokerRedirectRelaysSessionId(
    serverUrl: string, sessionId: string, returnUrl: string, buildQuery: Commands.Params -> string,
    headers: map<string, string>, routeParameters: map<string, string>)
    requires Base64.IsByteString(sessionId)
    ensures var redirect := Commands.RedirectToSsoServer(serverUrl, sessionId, returnUrl, buildQuery);
      var segment := Commands.TokenSegment(redirect.url, serverUrl);
      && segment.Some?
      && RelayHeaders(headers, routeParameters[TokenParameter := segment.value])[AuthorizationHeader] == "Bearer " + sessionId
  {
    Commands.RedirectTokenSegment(serverUrl, sessionId, returnUrl, buildQuery);
    RelayMatchesDirectHeader(headers, routeParameters, sessionId);
  }

  /** An incoming request: its headers, which the middleware changes, and its route parameters. */
  class Request {
    var headers: map<string, string>
    const routeParameters: map<string, string>

    constructor (headers: map<string, string>, routeParameters: map<string, string>)
      ensures this.headers == headers && this.routeParameters == routeParameters
    {
      this.headers := headers;
      this.routeParameters := routeParameters;
    }
  }

  /** The rest of the pipeline (`$next`): it records the headers of every request it is given. */
  class Next {
    var received: seq<map<string, string>>

    constructor ()
      ensures received == []
    {
      received := [];
    }

    method Handle(request: Request)
      modifies this
      ensures received == old(received) + [request.headers]
    {
      received := received + [request.headers];
    }
  }

  /**
   * `handle($request, $next)`: rewrite the headers in place, then pass the
   * request to `$next` exactly once.
   */
  method Handle(request: Request, next: Next)
    modifies request, next
    ensures request.headers == RelayHeaders(old(request.headers), request.routeParameters)
    ensures next.received == old(next.received) + [request.headers]
  {
    if TokenParameter in request.routeParameters {
      request.headers := request.headers[AuthorizationHeader := "Bearer " + Base64.Decode(request.routeParameters[TokenParameter])];
    }
    next.Handle(request);
  }
}
