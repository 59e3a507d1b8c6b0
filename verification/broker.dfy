/**
 * The broker object (`LaravelSSOBroker`) and the framework state it works on:
 * the options it reads from configuration, the client token it keeps in a
 * cookie, and the local user it finds or creates when a login succeeds.
 *
 * Each state-changing method is specified by a pure step function on values
 * (`SaveTokenStep`, `DeleteTokenStep`, `LoginStep`); what the broker promises
 * across calls and requests is proved about those functions.
 */
module Broker {
  import opened Wrappers
  import CookieNames
  import Commands

  // ---------------------------------------------------------------- options

  /** `MissingConfigurationException`. */
  datatype ConfigurationError = MissingConfigurationException(message: string)

  /**
   * The check at the end of `setOptions`: it throws unless the server URL,
   * the broker name and the broker secret are all truthy.
   */
  function CheckOptions(serverUrl: Option<string>, brokerName: Option<string>, brokerSecret: Option<string>): (e: Option<ConfigurationError>)
    ensures e.None? <==> Truthy(serverUrl) && Truthy(brokerName) && Truthy(brokerSecret)
    ensures e.Some? ==> e.value == MissingConfigurationException("Missing configuration values.")
  {
    if !Truthy(serverUrl) || !Truthy(brokerName) || !Truthy(brokerSecret) then
      Some(MissingConfigurationException("Missing configuration values."))
    else None
  }

  // ---------------------------------------------------------------- cookies and tokens

  /** A cookie as `Cookie::make` builds it: its value (none once forgotten) and its lifetime in minutes. */
  datatype Cookie = Cookie(value: Option<string>, minutes: int)

  /** Lifetime of the token cookie, in minutes. */
  const TokenLifetime := 60

  /** Length of a token from `Str::random`. */
  const TokenLength := 40

  /** The lifetime `Cookie::forget` gives the cookie it builds: five years in the past. */
  const ForgetLifetime := -2628000

  /** `Cookie::get(name, null)`: the value the current request carries, or null. */
  function CookieGet(requestCookies: map<string, string>, name: string): (v: Option<string>)
    ensures v.Some? <==> name in requestCookies
    ensures v.Some? ==> v.value == requestCookies[name]
  {
    if name in requestCookies then Some(requestCookies[name]) else None
  }

  /** A cookie the browser keeps after the response: it has a value and a lifetime in the future. */
  predicate Live(c: Cookie) {
    c.value.Some? && c.minutes > 0
  }

  /**
   * The cookies the browser sends with its next request, before any of them
   * expires: a live queued cookie sets its value, an expired one removes the
   * cookie, and every cookie not queued is sent again unchanged.
   */
  function NextRequestCookies(sent: map<string, string>, queued: map<string, Cookie>): (r: map<string, string>)
    ensures forall n :: n in queued && Live(queued[n]) ==> n in r && r[n] == queued[n].value.value
    ensures forall n :: n in queued && !Live(queued[n]) ==> n !in r
    ensures forall n :: n !in queued ==> (n in r <==> n in sent)
    ensures forall n :: n !in queued && n in sent ==> r[n] == sent[n]
  {
    map n | n in sent.Keys + queued.Keys && (n in queued ==> Live(queued[n]))
      :: if n in queued then queued[n].value.value else sent[n]
  }

  /** What `saveToken` and `deleteToken` read and change: the token field, the queued cookies, the `attach` calls so far. */
  datatype TokenState = TokenState(token: Option<string>, queued: map<string, Cookie>, attaches: nat)

  /**
   * `saveToken` with the cookie named `name`, where `random` is the value
   * `Str::random(40)` would return. A truthy token is kept; otherwise the
   * request's cookie is adopted when truthy; otherwise the random token is
   * stored, queued as a 60-minute cookie, and `attach` runs once.
   */
  function SaveTokenStep(s: TokenState, requestCookies: map<string, string>, name: string, random: string): (r: TokenState)
    requires |random| == TokenLength
    ensures Truthy(r.token)
    ensures Truthy(s.token) ==> r == s
    ensures !Truthy(s.token) && Truthy(CookieGet(requestCookies, name))
      ==> r == s.(token := CookieGet(requestCookies, name))
    ensures r.attaches == s.attaches + 1
      <==> !Truthy(s.token) && !Truthy(CookieGet(requestCookies, name))
    ensures r.attaches == s.attaches + 1
      ==> r.token == Some(random) && r.queued == s.queued[name := Cookie(Some(random), TokenLifetime)]
    ensures r.attaches != s.attaches + 1 ==> r.attaches == s.attaches && r.queued == s.queued
  {
    if Truthy(s.token) then s
    else if Truthy(CookieGet(requestCookies, name)) then s.(token := CookieGet(requestCookies, name))
    else TokenState(Some(random), s.queued[name := Cookie(Some(random), TokenLifetime)], s.attaches + 1)
  }

  /** A second `saveToken` in the same request changes nothing and attaches no more. */
  lemma SaveTokenIdempotent(s: TokenState, requestCookies: map<string, string>, name: string, random: string, random': string)
    requires |random| == TokenLength && |random'| == TokenLength
    ensures var once := SaveTokenStep(s, requestCookies, name, random);
      SaveTokenStep(once, requestCookies, name, random') == once
  {
  }

  /**
   * The token outlives the request: a broker that starts a request without a
   * token saves one, and on the browser's next request a new broker adopts that
   * same token from the cookie, queues nothing and does not attach.
   */
  lemma {:induction false} TokenPersistsAcrossRequests(
    s: TokenState, requestCookies: map<string, string>, name: string, random: string,
    next: TokenState, random': string)
    requires |random| == TokenLength && |random'| == TokenLength
    requires !Truthy(s.token) && name !in s.queued
    requires !Truthy(next.token)
    ensures var first := SaveTokenStep(s, requestCookies, name, random);
      var second := SaveTokenStep(next, NextRequestCookies(requestCookies, first.queued), name, random');
      second.token == first.token && second.queued == next.queued && second.attaches == next.attaches
  {
    var first := SaveTokenStep(s, requestCookies, name, random);
    var cookies' := NextRequestCookies(requestCookies, first.queued);
    if first.attaches == s.attaches + 1 {
      assert Live(first.queued[name]);
      assert cookies'[name] == random;
      assert Truthy(CookieGet(cookies', name)) by {
        assert |random| == 40;
      }
    } else {
      assert name !in first.queued;
      assert CookieGet(cookies', name) == CookieGet(requestCookies, name);
    }
  }

  /**
   * `deleteToken` as written: the token field is cleared, and the cookie that
   * `Cookie::forget` builds is dropped without being queued, so the response
   * does not touch the browser's cookie.
   */
  function DeleteTokenStepAsWritten(s: TokenState): (r: TokenState)
    ensures r.token.None?
    ensures r.queued == s.queued && r.attaches == s.attaches
  {
    s.(token := None)
  }

  /**
   * `deleteToken` as intended: the token field is cleared and the response
   * expires the token cookie (`Cookie::queue(Cookie::forget(name))`).
   */
  function DeleteTokenStep(s: TokenState, name: string): (r: TokenState)
    ensures r.token.None? && r.attaches == s.attaches
    ensures name in r.queued && !Live(r.queued[name])
    ensures forall n :: n != name ==> (n in r.queued <==> n in s.queued)
    ensures forall n :: n != name && n in s.queued ==> r.queued[n] == s.queued[n]
  {
    TokenState(None, s.queued[name := Cookie(None, ForgetLifetime)], s.attaches)
  }

  /**
   * As written, a deleted token comes back: when the request carried the
   * token's cookie, the browser sends it again and the next request's
   * `saveToken` adopts the deleted token without a new `attach`.
   */
  lemma DeletedTokenComesBack(
    s: TokenState, requestCookies: map<string, string>, name: string,
    next: TokenState, random: string)
    requires |random| == TokenLength
    requires name !in s.queued && Truthy(s.token) && s.token == CookieGet(requestCookies, name)
    requires !Truthy(next.token)
    ensures var deleted := DeleteTokenStepAsWritten(s);
      var again := SaveTokenStep(next, NextRequestCookies(requestCookies, deleted.queued), name, random);
      again.token == s.token && again.attaches == next.attaches
  {
    var cookies' := NextRequestCookies(requestCookies, DeleteTokenStepAsWritten(s).queued);
    assert CookieGet(cookies', name) == CookieGet(requestCookies, name);
  }

  /**
   * Corrected, a deleted token stays deleted: the next request carries no
   * token cookie, so its `saveToken` issues a random token and attaches once.
   */
  lemma DeletedTokenStaysDeleted(
    s: TokenState, requestCookies: map<string, string>, name: string,
    next: TokenState, random: string)
    requires |random| == TokenLength
    requires !Truthy(next.token)
    ensures var deleted := DeleteTokenStep(s, name);
      var again := SaveTokenStep(next, NextRequestCookies(requestCookies, deleted.queued), name, random);
      again.token == Some(random) && again.attaches == next.attaches + 1
  {
    var cookies' := NextRequestCookies(requestCookies, DeleteTokenStep(s, name).queued);
    assert name !in cookies';
  }

  // ---------------------------------------------------------------- login

  /** A value of `json_decode($body, true)`: JSON objects and lists become PHP arrays with string keys. */
  datatype Json = Null | Bool(b: bool) | Num(n: int) | Str(s: string) | Arr(entries: map<string, Json>)

  /** PHP `isset($j[key])`: `$j` is an array holding a non-null value at `key`. */
  predicate IsSet(j: Json, key: string) {
    j.Arr? && key in j.entries && j.entries[key] != Null
  }

  /** The success test of `login`: the reply has no `error` and has `data.id`. */
  predicate LoginSucceeds(info: Json) {
    !IsSet(info, "error") && IsSet(info, "data") && IsSet(info.entries["data"], "id")
  }

  /**
   * The reply passed the success test and `data` holds the entry
   * `$remoteUserName` names; a null name is PHP's array key `""`.
   */
  predicate ReadsRemoteUser(info: Json, remoteUserName: Option<string>) {
    LoginSucceeds(info) && remoteUserName.GetOr("") in info.entries["data"].entries
  }

  /**
   * `$this->userInfo['data'][$remoteUserName]`: the remote field the local
   * user is matched on. A null name reads the entry `""`.
   */
  function RemoteValue(info: Json, remoteUserName: Option<string>): (v: Json)
    requires ReadsRemoteUser(info, remoteUserName)
    ensures remoteUserName.Some? ==> v == info.entries["data"].entries[remoteUserName.value]
    ensures remoteUserName.None? ==> v == info.entries["data"].entries[""]
  {
    info.entries["data"].entries[remoteUserName.GetOr("")]
  }

  /** No two local users share a value of the configured field. */
  predicate UniqueKeys(users: seq<Json>) {
    forall i, j :: 0 <= i < j < |users| ==> users[i] != users[j]
  }

  /**
   * `where(field, value)->first()` on the local users, whose row `i` has id
   * `i + 1` and field value `users[i]`: the first row holding `value`.
   */
  function FindUser(users: seq<Json>, value: Json): (r: Option<nat>)
    ensures r.None? <==> value !in users
    ensures r.Some? ==> r.value < |users| && users[r.value] == value
    ensures r.Some? ==> forall i :: 0 <= i < r.value ==> users[i] != value
  {
    if users == [] then None
    else if users[0] == value then Some(0)
    else match FindUser(users[1..], value)
      case Some(i) => Some(i + 1)
      case None => None
  }

  /** A value of the field occurs at most once in a table without duplicates. */
  lemma {:induction false} UniqueKeysCount(users: seq<Json>, value: Json)
    requires UniqueKeys(users)
    ensures multiset(users)[value] <= 1
  {
    if users != [] {
      assert UniqueKeys(users[1..]) by {
        forall i, j | 0 <= i < j < |users[1..]| ensures users[1..][i] != users[1..][j] {
          assert users[i + 1] != users[j + 1];
        }
      }
      UniqueKeysCount(users[1..], value);
      assert users == [users[0]] + users[1..];
      if users[0] == value {
        assert value !in users[1..] by {
          forall j | 0 <= j < |users[1..]| ensures users[1..][j] != value {
            assert users[0] != users[j + 1];
          }
        }
      }
    }
  }

  /** The guard's state: a guest, or a user logged in by id (with the "remember me" flag). */
  datatype Auth = Guest | LoggedIn(id: nat, remember: bool)

  /** The local state `login` reads and changes. */
  datatype LocalState = LocalState(users: seq<Json>, auth: Auth)

  /**
   * How `login` ends: it returns a boolean, or the read of a missing
   * `data[$remoteUserName]` raises PHP's "Undefined array key" warning, which
   * the framework's error handler turns into an `ErrorException`.
   */
  datatype LoginOutcome = Returned(ok: bool) | UndefinedArrayKey(key: string)

  /**
   * `login` after the server's reply `info`: on success the user whose field
   * holds the remote value is found or created, and logged in if the visitor
   * is a guest. A rejected reply returns false and a reply without the remote
   * field throws; neither changes the local state.
   */
  function LoginStep(s: LocalState, info: Json, remoteUserName: Option<string>): (r: (LoginOutcome, LocalState))
    ensures r.0 == Returned(false) <==> !LoginSucceeds(info)
    ensures r.0 == Returned(true) <==> ReadsRemoteUser(info, remoteUserName)
    ensures r.0.UndefinedArrayKey? <==> LoginSucceeds(info) && !ReadsRemoteUser(info, remoteUserName)
    ensures r.0.UndefinedArrayKey? ==> r.0.key == remoteUserName.GetOr("")
    ensures r.0 != Returned(true) ==> r.1 == s
  {
    if !LoginSucceeds(info) then (Returned(false), s)
    else if !ReadsRemoteUser(info, remoteUserName) then (UndefinedArrayKey(remoteUserName.GetOr("")), s)
    else
      var value := RemoteValue(info, remoteUserName);
      var (users, id) := match FindUser(s.users, value)
        case Some(i) => (s.users, i + 1)
        case None => (s.users + [value], |s.users| + 1);
      var auth := if s.auth.Guest? then LoggedIn(id, true) else s.auth;
      (Returned(true), LocalState(users, auth))
  }

  /**
   * Without a configured `remoteUserName` the key read is `""`, so a
   * successful reply whose `data` has no `""` entry makes `login` throw.
   */
  lemma UnconfiguredRemoteUserNameThrows(s: LocalState, info: Json)
    requires LoginSucceeds(info) && "" !in info.entries["data"].entries
    ensures LoginStep(s, info, None) == (UndefinedArrayKey(""), s)
  {
  }

  /**
   * A successful login adds a user iff none holds the remote value, never
   * duplicates one, and logs a guest in (remembered) as a user holding that
   * value; a non-guest's session is kept.
   */
  lemma LoginStepEffect(s: LocalState, info: Json, remoteUserName: Option<string>)
    requires ReadsRemoteUser(info, remoteUserName)
    ensures var r := LoginStep(s, info, remoteUserName).1; var value := RemoteValue(info, remoteUserName);
      && |s.users| <= |r.users| <= |s.users| + 1
      && r.users[..|s.users|] == s.users
      && (|r.users| == |s.users| + 1 <==> value !in s.users)
      && value in r.users
      && multiset(r.users)[value] == (if value in s.users then multiset(s.users)[value] else 1)
      && (s.auth.Guest? ==> r.auth.LoggedIn? && r.auth.remember
                            && 1 <= r.auth.id <= |r.users| && r.users[r.auth.id - 1] == value)
      && (!s.auth.Guest? ==> r.auth == s.auth)
  {
    var value := RemoteValue(info, remoteUserName);
    var r := LoginStep(s, info, remoteUserName).1;
    match FindUser(s.users, value)
    case Some(i) =>
      assert r.users == s.users;
      assert r.users[..|s.users|] == s.users;
    case None =>
      assert r.users == s.users + [value];
      assert r.users[..|s.users|] == s.users;
  }

  /**
   * Every outcome of `login` keeps the field unique; a successful one leaves
   * exactly one user with the remote value.
   */
  lemma LoginKeepsUsersUnique(s: LocalState, info: Json, remoteUserName: Option<string>)
    requires UniqueKeys(s.users)
    ensures UniqueKeys(LoginStep(s, info, remoteUserName).1.users)
    ensures ReadsRemoteUser(info, remoteUserName)
      ==> multiset(LoginStep(s, info, remoteUserName).1.users)[RemoteValue(info, remoteUserName)] == 1
  {
    if ReadsRemoteUser(info, remoteUserName) {
      var value := RemoteValue(info, remoteUserName);
      var r := LoginStep(s, info, remoteUserName).1;
      if value in s.users {
        UniqueKeysCount(s.users, value);
      } else {
        assert r.users == s.users + [value];
      }
    }
  }

  /** A second successful login with the same remote identity creates no user and keeps the session. */
  lemma LoginTwiceCreatesOnce(s: LocalState, info: Json, info': Json, remoteUserName: Option<string>)
    requires ReadsRemoteUser(info, remoteUserName) && ReadsRemoteUser(info', remoteUserName)
    requires RemoteValue(info, remoteUserName) == RemoteValue(info', remoteUserName)
    ensures var once := LoginStep(s, info, remoteUserName).1;
      LoginStep(once, info', remoteUserName).1 == once
  {
    var once := LoginStep(s, info, remoteUserName).1;
    var twice := LoginStep(once, info', remoteUserName).1;
    assert twice.users == once.users;
  }

  // ---------------------------------------------------------------- objects

  /** The framework state the broker reaches through facades. */
  class Framework {
    /** The cookies the current request carries (`Cookie::get`). */
    var requestCookies: map<string, string>
    /** The cookies queued for the response (`Cookie::queue`). */
    var queuedCookies: map<string, Cookie>
    /** The local users table: row `i` has id `i + 1` and configured field `users[i]`. */
    var users: seq<Json>
    /** `auth()`. */
    var auth: Auth

    constructor (requestCookies: map<string, string>, users: seq<Json>, auth: Auth)
      ensures this.requestCookies == requestCookies && this.queuedCookies == map[]
      ensures this.users == users && this.auth == auth
    {
      this.requestCookies := requestCookies;
      this.queuedCookies := map[];
      this.users := users;
      this.auth := auth;
    }
  }

  class LaravelSSOBroker {
    const app: Framework
    /** `config('laravel-sso.remoteUserName')`. */
    const remoteUserName: Option<string>

    var ssoServerUrl: Option<string>
    var brokerName: Option<string>
    var brokerSecret: Option<string>
    var token: Option<string>
    var userInfo: Json
    /** How many times `attach` has run. */
    var attachCalls: nat
    /** The requests handed to the HTTP client, oldest first. */
    var sent: seq<Commands.OutgoingRequest>

    constructor (app: Framework, remoteUserName: Option<string>)
      ensures this.app == app && this.remoteUserName == remoteUserName
      ensures ssoServerUrl.None? && brokerName.None? && brokerSecret.None?
      ensures token.None? && userInfo == Null && attachCalls == 0 && sent == []
    {
      this.app := app;
      this.remoteUserName := remoteUserName;
      ssoServerUrl, brokerName, brokerSecret := None, None, None;
      token, userInfo, attachCalls, sent := None, Null, 0, [];
    }

    /** `getCookieName()`; a null broker name lower-cases to the empty string. */
    function CookieName(): (r: string)
      reads this
      ensures brokerName.Some? ==> r == CookieNames.CookieName(brokerName.value)
      ensures brokerName.None? ==> r == CookieNames.Prefix
    {
      CookieNames.CookieName(brokerName.GetOr(""))
    }

    function Tokens(): (t: TokenState)
      reads this, app
    {
      TokenState(token, app.queuedCookies, attachCalls)
    }

    function Local(): (l: LocalState)
      reads app
    {
      LocalState(app.users, app.auth)
    }

    /**
     * `setOptions`: the three values are stored first, then the method fails
     * unless all three are truthy.
     */
    method SetOptions(serverUrl: Option<string>, name: Option<string>, secret: Option<string>)
      returns (error: Option<ConfigurationError>)
      modifies this
      ensures ssoServerUrl == serverUrl && brokerName == name && brokerSecret == secret
      ensures error == CheckOptions(serverUrl, name, secret)
      ensures token == old(token) && userInfo == old(userInfo)
      ensures attachCalls == old(attachCalls) && sent == old(sent)
    {
      ssoServerUrl := serverUrl;
      brokerName := name;
      brokerSecret := secret;
      if !Truthy(ssoServerUrl) || !Truthy(brokerName) || !Truthy(brokerSecret) {
        return Some(MissingConfigurationException("Missing configuration values."));
      }
      return None;
    }

    /** `attach()`, recorded as one more call. */
    method Attach()
      modifies this
      ensures attachCalls == old(attachCalls) + 1
      ensures token == old(token) && userInfo == old(userInfo) && sent == old(sent)
      ensures ssoServerUrl == old(ssoServerUrl) && brokerName == old(brokerName) && brokerSecret == old(brokerSecret)
    {
      attachCalls := attachCalls + 1;
    }

    /** `saveToken()`, where `random` is the value of `Str::random(40)`. */
    method SaveToken(random: string)
      requires |random| == TokenLength
      modifies this, app
      ensures Tokens() == SaveTokenStep(old(Tokens()), app.requestCookies, CookieName(), random)
      ensures app.requestCookies == old(app.requestCookies) && Local() == old(Local())
      ensures userInfo == old(userInfo) && sent == old(sent)
      ensures ssoServerUrl == old(ssoServerUrl) && brokerName == old(brokerName) && brokerSecret == old(brokerSecret)
    {
      if Truthy(token) {
        return;
      }
      token := CookieGet(app.requestCookies, CookieName());
      if Truthy(token) {
        return;
      }
      token := Some(random);
      app.queuedCookies := app.queuedCookies[CookieName() := Cookie(Some(random), TokenLifetime)];
      Attach();
    }

    /** `deleteToken()`, with the forgotten cookie queued (see `DeleteTokenStep`). */
    method DeleteToken()
      modifies this, app
      ensures Tokens() == DeleteTokenStep(old(Tokens()), CookieName())
      ensures app.requestCookies == old(app.requestCookies) && Local() == old(Local())
      ensures userInfo == old(userInfo) && sent == old(sent)
      ensures ssoServerUrl == old(ssoServerUrl) && brokerName == old(brokerName) && brokerSecret == old(brokerSecret)
    {
      token := None;
      app.queuedCookies := app.queuedCookies[CookieName() := Cookie(None, ForgetLifetime)];
    }

    /**
     * `login(username, password)`, where `sessionId` is the value of
     * `getSessionId()` and `reply` the decoded body of the server's answer.
     */
    method Login(username: string, password: string, sessionId: string, reply: Json) returns (outcome: LoginOutcome)
      modifies this, app
      ensures sent == old(sent) + [Commands.MakeRequest(ssoServerUrl.GetOr(""), "POST", "login",
                                                         [("username", username), ("password", password)], sessionId)]
      ensures userInfo == reply
      ensures (outcome, Local()) == LoginStep(old(Local()), reply, remoteUserName)
      ensures app.requestCookies == old(app.requestCookies) && app.queuedCookies == old(app.queuedCookies)
      ensures token == old(token) && attachCalls == old(attachCalls)
      ensures ssoServerUrl == old(ssoServerUrl) && brokerName == old(brokerName) && brokerSecret == old(brokerSecret)
    {
      var request := Commands.MakeRequest(ssoServerUrl.GetOr(""), "POST", "login",
                                          [("username", username), ("password", password)], sessionId);
      sent := sent + [request];
      userInfo := reply;
      if LoginSucceeds(userInfo) {
        var key := remoteUserName.GetOr("");
        if key !in userInfo.entries["data"].entries {
          return UndefinedArrayKey(key);
        }
        var value := RemoteValue(userInfo, remoteUserName);
        var id: nat;
        match FindUser(app.users, value) {
          case Some(i) =>
            id := i + 1;
          case None =>
            app.users := app.users + [value];
            id := |app.users|;
        }
        if app.auth.Guest? {
          app.auth := LoggedIn(id, true);
        }
        return Returned(true);
      }
      return Returned(false);
    }
  }
}
