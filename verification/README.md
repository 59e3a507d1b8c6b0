# laravel-sso broker core, modelled in Dafny

This project models the broker side of the `laravel-sso` single-sign-on package together with the one piece of server-side code that pairs with it.

A broker is an application that delegates login to a central SSO server. The model covers:

- the broker's client token, kept in a cookie whose name is derived from the broker name;
- the URLs and HTTP requests the broker sends to the server;
- the browser redirect to the server's login page, which carries the session id base64-encoded in a path segment;
- `login`, which finds or creates the local user for a successful remote login and logs them in if the visitor is a guest;
- the server middleware `AddTokenToLoginFromBrokers`, which turns that path segment back into an `Authorization: Bearer` header.

Files and modules:

- `wrappers.dfy` (`Wrappers`): `Option`, standing for PHP's `null`.
- `base64.dfy` (`Base64`): `base64_encode` as section 4 of RFC 4648 defines it (standard alphabet, `=` padding). Also `base64_decode` in PHP's default non-strict mode, which skips `=` and every character outside the alphabet. A PHP string is a byte string; the model writes it as a `string` whose characters are all below 256.
- `cookie_names.dfy` (`CookieNames`): `getCookieName`.
- `commands.dfy` (`Commands`): `generateCommandUrl`, the request shaping of `makeRequest`, `redirect` and `redirectToSsoServer`. These are pure functions; the response or HTTP call at their end is returned as a value.
- `broker.dfy` (`Broker`): the class `LaravelSSOBroker` and a class `Framework` for the state the broker reaches through facades: request cookies, queued cookies, the local users table and the auth guard. `setOptions`, `saveToken`, `deleteToken` and `login` are methods. Each is specified by a pure step function, and the cross-call properties are proved about those functions.
- `relay.dfy` (`Relay`): the middleware, as a method that rewrites a `Request` object's headers in place and passes it once to `Next`.

## Model

| member | source | states |
|---|---|---|
| `Base64.Encode` | src/LaravelSSOBroker.php:184 | `base64_encode`: the output length is 4·⌈n/3⌉. Every character is `=` or in the alphabet, and none is `?` or `#`. |
| `Base64.Decode` | src/Middleware/AddTokenToLoginFromBrokers.php:20 | Non-strict `base64_decode`: it skips non-alphabet characters, including `=`, and yields a byte string. |
| `Base64.DecodeEncode` | src/Middleware/AddTokenToLoginFromBrokers.php:20 | For every byte string s, `Decode(Encode(s)) == s`. |
| `Base64.EncodeInjective` | src/LaravelSSOBroker.php:184 | Distinct session ids give distinct path segments. |
| `Base64.TestVectorF` | src/LaravelSSOBroker.php:184 | RFC 4648 section 10 vector: `"f"` encodes to `"Zg=="`. |
| `Base64.TestVectorFo` | src/LaravelSSOBroker.php:184 | RFC 4648 section 10 vector: `"fo"` encodes to `"Zm8="`. |
| `Base64.TestVectorFoo` | src/LaravelSSOBroker.php:184 | RFC 4648 section 10 vector: `"foo"` encodes to `"Zm9v"`. |
| `CookieNames.Lower` | src/LaravelSSOBroker.php:173 | `strtolower`: same length, and each character is lower-cased. |
| `CookieNames.Collapse` | src/LaravelSSOBroker.php:173 | `preg_replace('/[_\W]+/', '_', …)`: empty iff the input is empty. The first character is the input's letter or digit, or `_` when the input starts with a separator. |
| `CookieNames.CollapseShape` | src/LaravelSSOBroker.php:173 | The replacement produces only letters, digits and `_`, and never `__`. |
| `CookieNames.CollapseAlnums` | src/LaravelSSOBroker.php:173 | The replacement keeps the letters and digits of its input, in order. |
| `CookieNames.CollapseFixpoints` | src/LaravelSSOBroker.php:173 | The replacement leaves a string unchanged iff it has only letters, digits and single `_`s. |
| `CookieNames.Normalize` | src/LaravelSSOBroker.php:173 | The normalised name has no upper case and no `__`. It keeps the letters and digits of the lower-cased name. |
| `CookieNames.NormalizeIdempotent` | src/LaravelSSOBroker.php:173 | Normalising twice is the same as normalising once. |
| `CookieNames.CookieName` | src/LaravelSSOBroker.php:169-174 | The cookie name starts with `sso_token_`, and its suffix has no upper case and no `__`. |
| `CookieNames.CookieNameOfNormalized` | src/LaravelSSOBroker.php:171-173 | A broker name and its normalised form share one cookie. |
| `CookieNames.SharedCookie` | src/LaravelSSOBroker.php:171-173 | Two broker names share one cookie iff they normalise to the same string. |
| `CookieNames.SeparatorSplitsCookies` | src/LaravelSSOBroker.php:173 | A separator between letters is kept as `_`, so the brokers `ab` and `a-b` get different cookies. |
| `CookieNames.CookieNameAcme` | src/LaravelSSOBroker.php:169-174 | The broker `Acme` uses the cookie `sso_token_acme`. |
| `Commands.GenerateCommandUrl` | src/LaravelSSOBroker.php:29-37 | The URL is server URL + `/api/sso/` + command. `?` + query follows iff there are parameters. |
| `Commands.CommandUrlWithoutParams` | src/LaravelSSOBroker.php:29-37 | Without parameters the command URL contains no `?` of its own. |
| `Commands.RequestBody` | src/LaravelSSOBroker.php:110-120 | Parameters go as `form_params` iff the method is `POST` and as `query` iff it is `GET`. Any other method sends no body. |
| `Commands.CommandHeaders` | src/LaravelSSOBroker.php:105-108 | Exactly two headers: `Accept: application/json` and `Authorization: Bearer <session id>`. |
| `Commands.MakeRequest` | src/LaravelSSOBroker.php:101-123 | The request keeps the method and uses the parameterless command URL. Its headers are always the two command headers, and the body is chosen by method. |
| `Commands.MakeRequestParamsTravelOnce` | src/LaravelSSOBroker.php:103-120 | The parameters reach the server in exactly one place chosen by the method. The URL carries no query. |
| `Commands.UrlQuery` | src/LaravelSSOBroker.php:144 | `parse_url(…, PHP_URL_QUERY)`: absent when the URL has no `?`. It never includes the fragment. |
| `Commands.QuerySeparator` | src/LaravelSSOBroker.php:142-146 | The separator is `&` iff the URL's query is truthy, and `?` otherwise. |
| `Commands.Redirect` | src/LaravelSSOBroker.php:137-152 | The status is the one requested. With no parameters the Location is the URL unchanged; otherwise it is the URL, the separator and the query. |
| `Commands.RedirectSeparator` | src/LaravelSSOBroker.php:137-149 | With the default status the redirect is 307. A URL without `?` gets `?`. A URL without `#` whose query is neither empty nor `"0"` gets `&`. |
| `Commands.RedirectLocation` | src/LaravelSSOBroker.php:142-149 | With parameters, the location is the URL, then the separator `QuerySeparator` picks, then the query text. |
| `Commands.RedirectToSsoServer` | src/LaravelSSOBroker.php:181-194 | A 307 redirect to `…/api/sso/brokers/login/<base64(session id)>?<query of return_url>`. It carries the header `Authorization: Bearer <base64(session id)>`. |
| `Commands.TokenSegment` | src/Routes/server.php:16-17 | The `{token}` segment of a `brokers/login/{token}` URL never contains `?`. |
| `Commands.RedirectTokenSegment` | src/LaravelSSOBroker.php:184-186 | The redirect's `{token}` segment is exactly `base64_encode(session id)`. |
| `Commands.TokenSegmentOf` | src/LaravelSSOBroker.php:184 | A token segment free of `?` placed after the login-from-brokers route is read back unchanged, whatever query follows it. |
| `Commands.RedirectHeaderIsEncoded` | src/LaravelSSOBroker.php:188-190 | The redirect's header bearer value is the encoded session id, so it differs from the session id whenever that is non-empty. |
| `Broker.CheckOptions` | src/LaravelSSOBroker.php:52-54 | `MissingConfigurationException('Missing configuration values.')` iff the server URL, broker name or secret is null, `""` or `"0"`. |
| `Broker.LaravelSSOBroker.CookieName` | src/LaravelSSOBroker.php:169-174 | `getCookieName()` on the broker: the cookie name of its broker name, and plain `sso_token_` when the name is null. |
| `Broker.LaravelSSOBroker.SetOptions` | src/LaravelSSOBroker.php:46-55 | All three values are stored, even when the method then fails. The error is `CheckOptions`'s, and no other field changes. |
| `Broker.CookieGet` | src/LaravelSSOBroker.php:68 | `Cookie::get(name, null)` is the request's value iff the request carries the cookie, and null otherwise. |
| `Broker.SaveTokenStep` | src/LaravelSSOBroker.php:62-78 | Three outcomes: a truthy token changes nothing; otherwise a truthy cookie is adopted with nothing queued; otherwise the random token is stored and queued as a 60-minute cookie. `attach` runs iff the last branch is taken. The token is truthy afterwards. |
| `Broker.SaveTokenIdempotent` | src/LaravelSSOBroker.php:62-78 | A second `saveToken` changes nothing and attaches no more. |
| `Broker.TokenPersistsAcrossRequests` | src/LaravelSSOBroker.php:68-74 | On the browser's next request, a new broker adopts the same token from the cookie. It queues nothing and does not attach. |
| `Broker.LaravelSSOBroker.Attach` | src/LaravelSSOBroker.php:77 | `attach` is recorded as one more call and nothing else changes. |
| `Broker.LaravelSSOBroker.SaveToken` | src/LaravelSSOBroker.php:62-78 | The token, queued cookies and attach count become `SaveTokenStep` of the old ones. Request cookies, users, auth and options are unchanged. |
| `Broker.DeleteTokenStepAsWritten` | src/LaravelSSOBroker.php:85-89 | As written, the token becomes null and the queued cookies are unchanged, because the forgotten cookie is discarded. |
| `Broker.DeletedTokenComesBack` | src/LaravelSSOBroker.php:88 | As written, the browser sends the deleted token's cookie again, and the next request's `saveToken` adopts that token without `attach`. |
| `Broker.DeleteTokenStep` | src/LaravelSSOBroker.php:85-89 | Corrected: the token becomes null and an expired cookie is queued under the cookie name. No other queued cookie changes. |
| `Broker.DeletedTokenStaysDeleted` | src/LaravelSSOBroker.php:88 | Corrected: the next request carries no token cookie, so `saveToken` issues the random token and attaches once. |
| `Broker.LaravelSSOBroker.DeleteToken` | src/LaravelSSOBroker.php:85-89 | Corrected (see "## Findings"): the token state becomes `DeleteTokenStep` of the old one for `getCookieName()`, which also queues the expired cookie. No other field changes. The code as written is `Broker.DeleteTokenStepAsWritten`. |
| `Broker.RemoteValue` | src/LaravelSSOBroker.php:217-219 | When the entry exists, the value is `data[remoteUserName]`, and a null name reads the entry `""`. A missing entry is not read: `LoginStep` throws there. |
| `Broker.FindUser` | src/LaravelSSOBroker.php:219 | `where(field, value)->first()` finds the first row holding the value, and nothing iff no row holds it. |
| `Broker.LoginStep` | src/LaravelSSOBroker.php:213-234 | Returns false iff the reply has an `error` or lacks `data.id`. Throws the "Undefined array key" `ErrorException` for the key `remoteUserName` (`""` when null) iff the reply passes that test but `data` lacks that key. Returns true iff the key is present. Only a `true` result changes the users or the auth state. |
| `Broker.UnconfiguredRemoteUserNameThrows` | src/LaravelSSOBroker.php:217-219 | Without a configured `remoteUserName` (config/laravel-sso.php sets none), a successful reply without a `""` field makes `login` throw and changes nothing. |
| `Broker.LoginStepEffect` | src/LaravelSSOBroker.php:219-229 | On success a row is added iff none holds the remote value, and the old rows are kept, so none is duplicated. A guest is logged in (remember) as a user holding that value; a non-guest's session is kept. |
| `Broker.LoginKeepsUsersUnique` | src/LaravelSSOBroker.php:213-234 | Whatever the outcome, a table without duplicates stays so. A login that returns true leaves exactly one user with the remote value. |
| `Broker.LoginTwiceCreatesOnce` | src/LaravelSSOBroker.php:219-229 | A second successful login with the same remote identity creates no user and changes no session. |
| `Broker.LaravelSSOBroker.Login` | src/LaravelSSOBroker.php:205-235 | It sends exactly one request, the `POST login` command with `username` and `password` as form parameters, and stores the reply as `userInfo`, even when it then throws. Outcome, users and auth are `LoginStep` of the old state. Cookies, token and options are unchanged. |
| `Relay.RelayHeaders` | src/Middleware/AddTokenToLoginFromBrokers.php:19-21 | With a `token` parameter, `authorization` is `Bearer ` + decoded token and is the only header added or changed. Without one, the headers are unchanged. |
| `Relay.RelayOverwrites` | src/Middleware/AddTokenToLoginFromBrokers.php:20 | An earlier `Authorization` value is overwritten, not appended to. |
| `Relay.RelayMatchesDirectHeader` | src/Middleware/AddTokenToLoginFromBrokers.php:20 | A path token `base64_encode(x)` yields the same headers as sending `Authorization: Bearer x` directly. |
| `Relay.BrokerRedirectRelaysSessionId` | src/Middleware/AddTokenToLoginFromBrokers.php:19-21 | End to end, the broker's redirect segment, relayed by the middleware, gives `Authorization: Bearer <session id>`. |
| `Relay.Next.Handle` | src/Middleware/AddTokenToLoginFromBrokers.php:23 | The rest of the pipeline records the headers of the request it receives. |
| `Relay.Handle` | src/Middleware/AddTokenToLoginFromBrokers.php:16-24 | The request's headers become `RelayHeaders` of the old ones, and the request goes to `$next` exactly once, after the rewrite. |

## Left out

- Network I/O: the Guzzle transport, its exceptions, and `json_decode` of the reply (src/LaravelSSOBroker.php:122-125). `makeRequest` is modelled up to the request it hands to the client, and the decoded reply is a parameter of `Login`.
- `getSessionId` and `attach` are inherited from a base class that is not part of this model. The session id is a parameter wherever it is used, and `attach` is recorded as a call count.
- `Str::random(40)` is a 40-character parameter; its randomness is not modelled.
- `http_build_query` is an arbitrary function parameter (`buildQuery`), so the exact percent-encoding is not modelled.
- `Log::debug` of the reply and the credentials (src/LaravelSSOBroker.php:209-211) is a side effect and is not modelled.
- `getCurrentUrl` (src/LaravelSSOBroker.php:159-162) is a framework accessor that nothing in the modelled core calls.
- `app()->abort` and `redirect()->away` become returned values (`Redirection`, `AwayRedirect`). The response `$next` returns is not modelled, only what it receives.
- config/laravel-sso.php holds data only. `setOptions` takes the three values as parameters; the conversions `env()` applies to values such as `"true"` or `"null"` are not modelled. `config/laravel-sso.php` has no `remoteUserName` key, so it is an `Option` field of the broker, and null reads the entry `""` (see `Broker.UnconfiguredRemoteUserNameThrows`).
- The `ErrorException` that the framework makes of PHP's "Undefined array key" warning is modelled only as the outcome `UndefinedArrayKey(key)` of `login`. Its message and its propagation to the caller are not modelled.
- src/Routes/server.php is route registration. Only its `api/sso` prefix (`Commands.ApiPath`) and the `brokers/login/{token}` route (`Commands.LoginFromBrokersRoute`) are used.
- The Eloquent model is reduced to one column: a users table whose row `i` has id `i + 1` and the configured field `users[i]`. Database type coercion in `where` comparisons is not modelled; values match by equality.
- Cookie paths, domains, encryption and expiry over time are not modelled.
- `Broker.TokenPersistsAcrossRequests`: assumes the next request comes within the cookie's 60-minute lifetime.
- `CookieNames.Lower`: ASCII-only `strtolower`, as in PHP 8.2 and later; older PHP lower-cased by locale.
- `CookieNames.Collapse`: `\w` is taken as ASCII letters, digits and `_`, as PCRE's default tables have it without the `u` flag.
- `Commands.UrlQuery`: `parse_url` is reduced to "after the first `?`, before the first `#`". The model does not capture `false` for seriously malformed URLs or the parsing of the authority part.
- `Relay.BrokerRedirectRelaysSessionId`: the router is not modelled, so neither is Laravel's URL-decoding of route parameters. Its `[^/]+` match for `{token}` is left out too, and would fail for an encoded session id containing `/`.
- `Base64.Decode`: its result is specified by the round trip only. For input that is not a canonical encoding it follows PHP's non-strict decoder as described above; strict mode is not modelled.

## Findings

| source | as written | input that shows it | evidently intended | confidence | as-written member | corrected member |
|---|---|---|---|---|---|---|
| src/LaravelSSOBroker.php:88 | `Cookie::forget(name)` only builds an expired cookie and returns it. Nothing queues it, so the response leaves the browser's token cookie in place. | A request with cookie `sso_token_acme=T` and token `T` calls `deleteToken`. The next request still carries `T`, and `saveToken` adopts it again without `attach` (`Broker.DeletedTokenComesBack`). | Queue the expired cookie (`Cookie::queue(Cookie::forget(name))`) so that the token is gone from the next request on. | medium (framework behaviour of `CookieJar::forget`), not executed | `Broker.DeleteTokenStepAsWritten` | `Broker.DeleteTokenStep` |
