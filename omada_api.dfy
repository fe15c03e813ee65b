/**
 * The Omada controller client (`class OmadaAPI`): the session token's
 * lifecycle, the login that primes every operation, the request builder and
 * its error classification, `testConnection` and `logout`.
 *
 * The HTTP transport is an oracle: `transport(n)` is what cURL reports for
 * the n-th request the object sends (an error text, a status code and the
 * decoded body). Every request sent is appended to the log `sent`.
 */
module OmadaApi {
  import opened Common
  import opened Php

  datatype Method = GET | POST | PATCH | DELETE

  /** What `curl_exec` reports: `curl_error`, the HTTP status and `json_decode` of the body. */
  datatype CurlResult = CurlResult(error: string, status: int, body: Json)

  /** One request as sent: URL, verb, headers and the JSON body (`json_encode` is not modelled). */
  datatype Request = Request(url: string, verb: Method, headers: seq<string>, body: Option<Json>)

  /** The exceptions `makeRequest` throws. */
  datatype Failure = CurlError(error: string) | HttpError(status: int)

  /** A call either returns a value or throws. */
  datatype Completion<T> = Normal(value: T) | Thrown(failure: Failure)

  /** The result of a call, the token afterwards and the requests it sent. */
  datatype Exchange<T> = Exchange(result: Completion<T>, token: Json, requests: seq<Request>)

  /** The constructor's arguments: where the controller is and how to log in. */
  datatype Target = Target(host: string, port: int, username: string, password: Json, siteId: string)

  /** The operations that go through the login guard. */
  datatype Operation =
    | ControllerInfo
    | Sites
    | Clients(site: Option<string>)
    | AuthorizeGuest(mac: string, duration: int, uploadLimit: Option<int>, downloadLimit: Option<int>)
    | BlockGuest(mac: string)
    | PortalSettings
    | UpdatePortalSettings(settings: Json)
    | Statistics
    | AccessPoints
    | CreateVoucher(quantity: int, duration: int, uploadLimit: Option<int>, downloadLimit: Option<int>)

  /** The constructor's default site. */
  const DefaultSite: string := "default"

  /** The default authorisation time of `authorizeClient`, in seconds. */
  const DefaultDuration: int := 3600

  /** `$this->omadacId` is never assigned, so it interpolates as the empty string. */
  const OmadacId: Json := JNull

  function Url(t: Target, path: string): string {
    "https://" + t.host + ":" + IntString(t.port) + "/" + Interpolate(OmadacId) + path
  }

  function FailureMessage(f: Failure): string {
    match f
    case CurlError(e) => "cURL Error: " + e
    case HttpError(s) => "HTTP Error: " + IntString(s)
  }

  const BaseHeaders: seq<string> := ["Content-Type: application/json", "Accept: application/json"]

  const CsrfPrefix: string := "Csrf-Token: "

  predicate IsCsrf(h: string) {
    |CsrfPrefix| <= |h| && h[..|CsrfPrefix|] == CsrfPrefix
  }

  /** The headers of a request: the token travels iff the request authenticates and a token is held. */
  function Headers(useAuth: bool, token: Json): (h: seq<string>)
    ensures 2 <= |h| && h[..2] == BaseHeaders
    ensures (exists i :: 0 <= i < |h| && IsCsrf(h[i])) <==> useAuth && Truthy(token)
    ensures useAuth && Truthy(token) ==> h == BaseHeaders + [CsrfPrefix + Interpolate(token)]
  {
    assert BaseHeaders[0][..|CsrfPrefix|][1] != CsrfPrefix[1];
    assert BaseHeaders[1][..|CsrfPrefix|][0] != CsrfPrefix[0];
    var h := BaseHeaders + (if useAuth && Truthy(token) then [CsrfPrefix + Interpolate(token)] else []);
    assert useAuth && Truthy(token) ==> IsCsrf(h[2]);
    h
  }

  /** POST and PATCH carry the data when it is truthy; other methods carry none. */
  function BodyFor(verb: Method, data: Json): Option<Json> {
    if (verb == POST || verb == PATCH) && Truthy(data) then Some(data) else None
  }

  /** `makeRequest`'s outcome: a cURL error text throws first, then a status of 400 or more; otherwise the decoded body. */
  function Classify(r: CurlResult): (c: Completion<Json>)
    ensures c.Thrown? <==> TruthyStr(r.error) || r.status >= 400
    ensures TruthyStr(r.error) ==> c == Thrown(CurlError(r.error))
    ensures !TruthyStr(r.error) && r.status >= 400 ==> c == Thrown(HttpError(r.status))
    ensures c.Normal? ==> c.value == r.body
  {
    if TruthyStr(r.error) then Thrown(CurlError(r.error))
    else if r.status >= 400 then Thrown(HttpError(r.status))
    else Normal(r.body)
  }

  /** `$response && isset($response['result']['token'])`: the token a login response grants. */
  function GrantedToken(response: Json): (t: Option<Json>)
    ensures t.Some? ==> t.value != JNull
  {
    if Truthy(response) && Isset(Get(response, "result"), "token") then Some(Get(Get(response, "result"), "token"))
    else None
  }

  function LoginRequest(t: Target, token: Json): Request {
    Request(Url(t, "/api/v2/login"), POST, Headers(false, token),
            BodyFor(POST, JObject(map["username" := JStr(t.username), "password" := t.password])))
  }

  /** The path, method and data of an operation. */
  function Call(t: Target, op: Operation): (string, Method, Json) {
    var sitePath := "/api/v2/sites/" + t.siteId;
    match op
    case ControllerInfo => ("/api/v2/info", GET, JNull)
    case Sites => ("/api/v2/sites", GET, JNull)
    case Clients(site) => ("/api/v2/sites/" + OrElse(site, t.siteId) + "/clients", GET, JNull)
    case AuthorizeGuest(mac, duration, up, down) =>
      (sitePath + "/cmd/authorize-guest", POST,
       JObject(map["mac" := JStr(mac), "duration" := JInt(duration), "uploadLimit" := OfInt(up), "downloadLimit" := OfInt(down)]))
    case BlockGuest(mac) => (sitePath + "/cmd/unauthorize-guest", POST, JObject(map["mac" := JStr(mac)]))
    case PortalSettings => (sitePath + "/setting/guest", GET, JNull)
    case UpdatePortalSettings(settings) => (sitePath + "/setting/guest", PATCH, settings)
    case Statistics => (sitePath + "/stat", GET, JNull)
    case AccessPoints => (sitePath + "/eaps", GET, JNull)
    case CreateVoucher(quantity, duration, up, down) =>
      (sitePath + "/vouchers", POST,
       JObject(map["count" := JInt(quantity), "expireTime" := JInt(duration), "uploadLimit" := OfInt(up),
                   "downloadLimit" := OfInt(down), "type" := JStr("single")]))
  }

  function OperationRequest(t: Target, op: Operation, token: Json): Request {
    var (path, verb, data) := Call(t, op);
    Request(Url(t, path), verb, Headers(true, token), BodyFor(verb, data))
  }

  /** `login()` when the n-th request is its own: the token is taken only from a response that grants one. */
  function LoginSpec(t: Target, transport: nat -> CurlResult, token: Json, n: nat): Exchange<bool> {
    var c := Classify(transport(n));
    var req := [LoginRequest(t, token)];
    if c.Thrown? then Exchange(Thrown(c.failure), token, req)
    else if GrantedToken(c.value).Some? then Exchange(Normal(true), GrantedToken(c.value).value, req)
    else Exchange(Normal(false), token, req)
  }

  /** An operation: log in first only without a token; a false login answers false; a throwing one propagates. */
  function PerformSpec(t: Target, transport: nat -> CurlResult, op: Operation, token: Json, n: nat): Exchange<Json> {
    if Truthy(token) then
      Exchange(Classify(transport(n)), token, [OperationRequest(t, op, token)])
    else
      var l := LoginSpec(t, transport, token, n);
      if l.result.Thrown? then Exchange(Thrown(l.result.failure), l.token, l.requests)
      else if !l.result.value then Exchange(Normal(JBool(false)), l.token, l.requests)
      else Exchange(Classify(transport(n + 1)), l.token, l.requests + [OperationRequest(t, op, l.token)])
  }

  /** `logout()`: nothing to do without a token; the token is cleared only if the request completes. */
  function LogoutSpec(t: Target, transport: nat -> CurlResult, token: Json, n: nat): Exchange<bool> {
    if !Truthy(token) then Exchange(Normal(true), token, [])
    else
      var req := [Request(Url(t, "/api/v2/logout"), POST, Headers(true, token), None)];
      if Classify(transport(n)).Thrown? then Exchange(Normal(false), token, req)
      else Exchange(Normal(true), JNull, req)
  }

  /** What `testConnection` returns; `data` is absent (null) on failure. */
  datatype ConnectionTest = ConnectionTest(success: bool, message: string, data: Json)

  function TestSpec(t: Target, transport: nat -> CurlResult, token: Json, n: nat): (r: ConnectionTest) {
    var e := PerformSpec(t, transport, ControllerInfo, token, n);
    if e.result.Normal? then ConnectionTest(true, "Connection successful", e.result.value)
    else ConnectionTest(false, "Connection failed: " + FailureMessage(e.result.failure), JNull)
  }

  /** Login changes the token only on a granting response, and it never authenticates its own request. */
  lemma LoginTokenRule(t: Target, transport: nat -> CurlResult, token: Json, n: nat)
    ensures var l := LoginSpec(t, transport, token, n);
      |l.requests| == 1 && (forall i :: 0 <= i < |l.requests[0].headers| ==> !IsCsrf(l.requests[0].headers[i]))
      && (l.result == Normal(true) <==> Classify(transport(n)).Normal? && GrantedToken(Classify(transport(n)).value).Some?)
      && (l.result == Normal(true) ==> l.token == Get(Get(transport(n).body, "result"), "token") && l.token != JNull)
      && (l.result != Normal(true) ==> l.token == token)
  {
  }

  /** With a token held, an operation sends exactly its own request, authenticated, and keeps the token. */
  lemma HeldTokenSkipsLogin(t: Target, transport: nat -> CurlResult, op: Operation, token: Json, n: nat)
    requires Truthy(token)
    ensures var e := PerformSpec(t, transport, op, token, n);
      e.requests == [OperationRequest(t, op, token)] && e.token == token
      && Headers(true, token)[|Headers(true, token)| - 1] == CsrfPrefix + Interpolate(token)
      && e.result == Classify(transport(n))
  {
  }

  /**
   * Without a token the login is sent first. If it answers false, the
   * operation answers false without sending its own request; if it throws,
   * the exception escapes; if it succeeds, the operation's request follows.
   */
  lemma MissingTokenPrimesLogin(t: Target, transport: nat -> CurlResult, op: Operation, token: Json, n: nat)
    requires !Truthy(token)
    ensures var e := PerformSpec(t, transport, op, token, n);
      var l := LoginSpec(t, transport, token, n);
      1 <= |e.requests| && e.requests[0] == LoginRequest(t, token)
      && (l.result == Normal(false) ==> e.result == Normal(JBool(false)) && |e.requests| == 1 && e.token == token)
      && (l.result.Thrown? ==> e.result == Thrown(l.result.failure) && |e.requests| == 1 && e.token == token)
      && (l.result == Normal(true) ==>
            e.requests == [LoginRequest(t, token), OperationRequest(t, op, l.token)]
            && e.token == l.token && e.result == Classify(transport(n + 1)))
  {
  }

  /** Logging out without a token sends nothing; otherwise it clears the token exactly when the request completes. */
  lemma LogoutRule(t: Target, transport: nat -> CurlResult, token: Json, n: nat)
    ensures var e := LogoutSpec(t, transport, token, n);
      e.result.Normal?
      && (!Truthy(token) ==> e.result.value && e.requests == [] && e.token == token)
      && (Truthy(token) ==>
            (|e.requests| == 1
             && (e.result.value <==> Classify(transport(n)).Normal?)
             && e.token == (if e.result.value then JNull else token)))
  {
  }

  /**
   * `testConnection` fails only when an exception escapes; a login that
   * merely answers false is a success whose data is false.
   */
  lemma TestConnectionRule(t: Target, transport: nat -> CurlResult, token: Json, n: nat)
    ensures var r := TestSpec(t, transport, token, n);
      (r.success <==> PerformSpec(t, transport, ControllerInfo, token, n).result.Normal?)
      && (!Truthy(token) && LoginSpec(t, transport, token, n).result == Normal(false) ==>
            r.success && r.data == JBool(false))
  {
  }

  /** The client for one controller. */
  class OmadaAPI {
    const host: string
    const port: int
    const username: string
    const password: Json
    const siteId: string
    const transport: nat -> CurlResult
    var token: Json
    var sent: seq<Request>

    constructor(transport: nat -> CurlResult, host: string, port: int, username: string, password: Json,
                siteId: string := DefaultSite)
      ensures Settings() == Target(host, port, username, password, siteId)
      ensures this.transport == transport && token == JNull && sent == []
    {
      this.host := host;
      this.port := port;
      this.username := username;
      this.password := password;
      this.siteId := siteId;
      this.transport := transport;
      token := JNull;
      sent := [];
    }

    function Settings(): Target {
      Target(host, port, username, password, siteId)
    }

    /** `makeRequest`: build the headers and body, send, and classify what comes back. */
    method MakeRequest(url: string, verb: Method, data: Json, useAuth: bool) returns (c: Completion<Json>)
      modifies this`sent
      ensures sent == old(sent) + [Request(url, verb, Headers(useAuth, token), BodyFor(verb, data))]
      ensures c == Classify(transport(|old(sent)|))
    {
      var headers := BaseHeaders;
      if useAuth && Truthy(token) {
        headers := headers + [CsrfPrefix + Interpolate(token)];
      }
      var body: Option<Json> := None;
      if verb == POST || verb == PATCH {
        if Truthy(data) {
          body := Some(data);
        }
      }
      assert headers == Headers(useAuth, token) && body == BodyFor(verb, data);
      var result := transport(|sent|);
      sent := sent + [Request(url, verb, headers, body)];
      if TruthyStr(result.error) {
        return Thrown(CurlError(result.error));
      }
      if result.status >= 400 {
        return Thrown(HttpError(result.status));
      }
      return Normal(result.body);
    }

    /** `login()`. */
    method Login() returns (c: Completion<bool>)
      modifies this`sent, this`token
      ensures var e := LoginSpec(Settings(), transport, old(token), |old(sent)|);
        c == e.result && token == e.token && sent == old(sent) + e.requests
    {
      var response := MakeRequest(Url(Settings(), "/api/v2/login"), POST,
                                  JObject(map["username" := JStr(username), "password" := password]), false);
      if response.Thrown? {
        return Thrown(response.failure);
      }
      if Truthy(response.value) && Isset(Get(response.value, "result"), "token") {
        token := Get(Get(response.value, "result"), "token");
        return Normal(true);
      }
      return Normal(false);
    }

    /** Any guarded operation: `if (!$this->token && !$this->login()) return false;`, then its request. */
    method Perform(op: Operation) returns (c: Completion<Json>)
      modifies this`sent, this`token
      ensures var e := PerformSpec(Settings(), transport, op, old(token), |old(sent)|);
        c == e.result && token == e.token && sent == old(sent) + e.requests
    {
      if !Truthy(token) {
        ghost var login := LoginSpec(Settings(), transport, token, |sent|);
        var l := Login();
        assert l == login.result && token == login.token && sent == old(sent) + login.requests;
        if l.Thrown? {
          return Thrown(l.failure);
        }
        if !l.value {
          return Normal(JBool(false));
        }
      }
      var call := Call(Settings(), op);
      ghost var request := OperationRequest(Settings(), op, token);
      assert request == Request(Url(Settings(), call.0), call.1, Headers(true, token), BodyFor(call.1, call.2));
      c := MakeRequest(Url(Settings(), call.0), call.1, call.2, true);
      assert sent == old(sent) + PerformSpec(Settings(), transport, op, old(token), |old(sent)|).requests;
    }

    /** `authorizeClient($mac, $duration = 3600, ...)`. */
    method AuthorizeClient(mac: string, duration: int := DefaultDuration, uploadLimit: Option<int> := None,
                           downloadLimit: Option<int> := None) returns (c: Completion<Json>)
      modifies this`sent, this`token
      ensures var e := PerformSpec(Settings(), transport, AuthorizeGuest(mac, duration, uploadLimit, downloadLimit),
                                   old(token), |old(sent)|);
        c == e.result && token == e.token && sent == old(sent) + e.requests
    {
      c := Perform(AuthorizeGuest(mac, duration, uploadLimit, downloadLimit));
    }

    /** `getClients($siteId = null)`: the given site when truthy, else the configured one. */
    method GetClients(site: Option<string> := None) returns (c: Completion<Json>)
      modifies this`sent, this`token
      ensures var e := PerformSpec(Settings(), transport, Clients(site), old(token), |old(sent)|);
        c == e.result && token == e.token && sent == old(sent) + e.requests
    {
      c := Perform(Clients(site));
    }

    /** `testConnection()`: catches what `getControllerInfo` throws. */
    method TestConnection() returns (r: ConnectionTest)
      modifies this`sent, this`token
      ensures r == TestSpec(Settings(), transport, old(token), |old(sent)|)
      ensures var e := PerformSpec(Settings(), transport, ControllerInfo, old(token), |old(sent)|);
        token == e.token && sent == old(sent) + e.requests
    {
      var info := Perform(ControllerInfo);
      if info.Thrown? {
        return ConnectionTest(false, "Connection failed: " + FailureMessage(info.failure), JNull);
      }
      return ConnectionTest(true, "Connection successful", info.value);
    }

    /** `logout()`. */
    method Logout() returns (ok: bool)
      modifies this`sent, this`token
      ensures var e := LogoutSpec(Settings(), transport, old(token), |old(sent)|);
        e.result == Normal(ok) && token == e.token && sent == old(sent) + e.requests
    {
      if !Truthy(token) {
        return true;
      }
      var c := MakeRequest(Url(Settings(), "/api/v2/logout"), POST, JNull, true);
      if c.Thrown? {
        return false;
      }
      token := JNull;
      return true;
    }
  }
}
