/**
 * `api/portal/authenticate.php`: guest access through the captive portal
 * without a voucher, either free (by e-mail) or through a social login. An
 * admitted guest gets an active session under a pseudo-MAC derived from the
 * client's IP address, on the lowest-numbered active controller, with the
 * first free plan; the controller is then asked to authorise the MAC, and
 * whatever it answers, the grant is returned.
 *
 * The request's fields are the decoded JSON values (`JNull` when absent);
 * `md5` stands for PHP's `md5()`, `fetch` for `file_get_contents` followed by
 * `json_decode(..., true)` (null when the fetch fails), `transport` for the
 * controller's HTTP behaviour, `sanitize` for the session store's input
 * filter, `raises` for whether the session INSERT raises (the script then
 * dies: the "Failed to create session" answer is never given).
 */
module PortalAuth {
  import opened Common
  import opened Php
  import opened Schema
  import opened Responses
  import opened OmadaApi
  import opened Gateway
  import Base64
  import Query
  import Validator
  import ControllerModel
  import SessionModel

  // ----- getMacAddress -----

  predicate IsLowerHex(c: char) {
    '0' <= c <= '9' || 'a' <= c <= 'f'
  }

  /** What `md5()` returns: 32 lower-case hexadecimal digits. */
  type Md5Hex = s: string | |s| == 32 && forall i :: 0 <= i < 32 ==> IsLowerHex(s[i])
    witness "00000000000000000000000000000000"

  /** `strtoupper` on one character: only ASCII letters change. */
  function Upper(c: char): (u: char)
    ensures 'a' <= c <= 'z' ==> 'A' <= u <= 'Z' && u as int == c as int - 32
    ensures !('a' <= c <= 'z') ==> u == c
  {
    if 'a' <= c <= 'z' then (c as int - 32) as char else c
  }

  function ToUpper(s: string): (u: string)
    ensures |u| == |s| && forall i :: 0 <= i < |s| ==> u[i] == Upper(s[i])
  {
    seq(|s|, i requires 0 <= i < |s| => Upper(s[i]))
  }

  /** Position `i` of the pseudo-MAC, when it is not a colon, shows digest digit `HexIndex(i)`. */
  function HexIndex(i: nat): (k: nat)
    requires i < 17
    ensures k < 12
  {
    2 * (i / 3) + i % 3
  }

  /** The six digit pairs joined by colons put digit `HexIndex(i)` at every non-colon position `i`. */
  lemma PairsJoined(digest: Md5Hex, joined: string)
    requires joined == digest[0..2] + ":" + digest[2..4] + ":" + digest[4..6] + ":" + digest[6..8] + ":"
                       + digest[8..10] + ":" + digest[10..12]
    ensures |joined| == 17
    ensures forall i :: 0 <= i < 17 ==> joined[i] == if i % 3 == 2 then ':' else digest[HexIndex(i)]
  {
    var p := digest[0..2] + ":" + digest[2..4] + ":" + digest[4..6] + ":";
    var q := digest[6..8] + ":" + digest[8..10] + ":" + digest[10..12];
    assert joined == p + q;
    assert p == [digest[0], digest[1], ':', digest[2], digest[3], ':', digest[4], digest[5], ':'];
    assert q == [digest[6], digest[7], ':', digest[8], digest[9], ':', digest[10], digest[11]];
  }

  /**
   * `getMacAddress()`: the first twelve digits of the digest of the client's
   * address, in pairs joined by colons, upper-cased.
   */
  function GetMacAddress(digest: Md5Hex): (mac: string)
    ensures |mac| == 17
    ensures forall i :: 0 <= i < 17 ==> mac[i] == if i % 3 == 2 then ':' else Upper(digest[HexIndex(i)])
  {
    var joined := digest[0..2] + ":" + digest[2..4] + ":" + digest[4..6] + ":" + digest[6..8] + ":"
                  + digest[8..10] + ":" + digest[10..12];
    PairsJoined(digest, joined);
    ToUpper(joined)
  }

  /**
   * The pseudo-MAC is upper-case hexadecimal in colon-separated pairs, which
   * is exactly what `Validator::macAddress` (as written) rejects; and it
   * depends on the first 48 bits of the digest alone.
   */
  lemma PortalMacShape(digest: Md5Hex, other: Md5Hex)
    ensures var mac := GetMacAddress(digest);
      (forall i :: 0 <= i < 17 && i % 3 != 2 ==> Validator.IsHexDigit(mac[i]) && !('a' <= mac[i] <= 'z'))
      && !Validator.MacAddress(mac)
    ensures digest[..12] == other[..12] ==> GetMacAddress(digest) == GetMacAddress(other)
  {
    var mac := GetMacAddress(digest);
    forall i | 0 <= i < 17 && i % 3 != 2
      ensures Validator.IsHexDigit(mac[i]) && !('a' <= mac[i] <= 'z')
    {
      assert IsLowerHex(digest[HexIndex(i)]);
    }
    Validator.StandardMacRejected(mac);
    if digest[..12] == other[..12] {
      forall i | 0 <= i < 17
        ensures GetMacAddress(digest)[i] == GetMacAddress(other)[i]
      {
        if i % 3 != 2 {
          assert digest[HexIndex(i)] == digest[..12][HexIndex(i)] == other[..12][HexIndex(i)];
        }
      }
    }
  }

  // ----- getDefaultController and getFreePlanId -----

  function ActiveControllerIds(controllers: map<nat, ControllerRow>): set<nat> {
    set k | k in controllers && ControllerModel.IsActive(controllers[k])
  }

  /** `getDefaultController()`: the lowest id of an active controller, or 1 when there is none. */
  function GetDefaultController(controllers: map<nat, ControllerRow>): (id: nat)
    ensures ActiveControllerIds(controllers) != {} ==>
      id in controllers && ControllerModel.IsActive(controllers[id])
      && forall k :: k in controllers && ControllerModel.IsActive(controllers[k]) ==> id <= k
    ensures ActiveControllerIds(controllers) == {} ==> id == 1
  {
    var ids := ActiveControllerIds(controllers);
    assert forall k :: k in controllers && ControllerModel.IsActive(controllers[k]) ==> k in ids;
    if ids == {} then 1 else Query.FirstKey(ids)
  }

  /** ASCII lower-casing, as the case-insensitive collation compares letters. */
  function Lower(c: char): char {
    if 'A' <= c <= 'Z' then (c as int + 32) as char else c
  }

  /** The four characters at `i` spell "free" in any case. */
  predicate FreeAt(name: string, i: nat)
    requires i + 4 <= |name|
  {
    Lower(name[i]) == 'f' && Lower(name[i + 1]) == 'r' && Lower(name[i + 2]) == 'e' && Lower(name[i + 3]) == 'e'
  }

  /** `name LIKE '%free%'`. */
  predicate MentionsFree(name: string) {
    exists i: nat :: i + 4 <= |name| && FreeAt(name, i)
  }

  /** `name LIKE '%free%' OR price = 0`; the plan's status is not consulted. */
  predicate FreePlan(plan: Plan) {
    MentionsFree(plan.name) || plan.price == 0
  }

  function FreePlanIds(plans: map<nat, Plan>): set<nat> {
    set k | k in plans && FreePlan(plans[k])
  }

  /** `getFreePlanId()`: the lowest id of a free plan, or null when there is none. */
  function GetFreePlanId(plans: map<nat, Plan>): (id: Option<nat>)
    ensures id.Some? <==> exists k :: k in plans && FreePlan(plans[k])
    ensures id.Some? ==>
      id.value in plans && FreePlan(plans[id.value]) && forall k :: k in plans && FreePlan(plans[k]) ==> id.value <= k
  {
    var ids := FreePlanIds(plans);
    assert forall k :: k in plans && FreePlan(plans[k]) ==> k in ids;
    if ids == {} then None else Some(Query.FirstKey(ids))
  }

  // ----- authorizeOnController -----

  /** What the attempt to authorise the guest's MAC on the controller came to. */
  datatype Authorization =
    | NotAttempted                                              // the guest was not admitted
    | NoController                                              // no row with that id
    | Attempted(outcome: Completion<Json>, requests: seq<Request>)

  /**
   * `authorizeOnController($db, $id, $mac, $duration)`: the row is looked up
   * whatever its status; a fresh client (no token yet) authorises the MAC;
   * what it throws is caught and only logged.
   */
  function AuthorizationSpec(controllers: map<nat, ControllerRow>, controllerId: nat, mac: string, duration: int,
                             transport: nat -> CurlResult): Authorization {
    if controllerId in controllers then
      var e := PerformSpec(TargetFor(controllers[controllerId]), transport, AuthorizeGuest(mac, duration, None, None), JNull, 0);
      Attempted(e.result, e.requests)
    else
      NoController
  }

  method AuthorizeOnController(db: Db, controllerId: nat, mac: string, duration: int, transport: nat -> CurlResult)
    returns (a: Authorization)
    ensures a == AuthorizationSpec(db.controllers, controllerId, mac, duration, transport)
  {
    if controllerId !in db.controllers {
      return NoController;
    }
    var row := db.controllers[controllerId];
    var omada := new OmadaAPI(transport, row.ipAddress, row.port, row.username,
                              PasswordValue(Base64.Decode(row.password)), row.siteId);
    var c := omada.AuthorizeClient(mac, duration);
    return Attempted(c, omada.sent);
  }

  /**
   * An attempt always logs in first, with the stored credentials; the
   * authorisation itself is sent only when the login grants a token, and
   * then it names the MAC and the duration.
   */
  lemma AuthorizationLogsInFirst(controllers: map<nat, ControllerRow>, controllerId: nat, mac: string, duration: int,
                                 transport: nat -> CurlResult)
    requires controllerId in controllers
    ensures var a := AuthorizationSpec(controllers, controllerId, mac, duration, transport);
      var t := TargetFor(controllers[controllerId]);
      var l := LoginSpec(t, transport, JNull, 0);
      a.Attempted? && 1 <= |a.requests| <= 2 && a.requests[0] == LoginRequest(t, JNull)
      && (|a.requests| == 2 <==> l.result == Normal(true))
      && (|a.requests| == 2 ==>
            a.requests[1] == OperationRequest(t, AuthorizeGuest(mac, duration, None, None), l.token)
            && a.requests[1].body == Some(JObject(map["mac" := JStr(mac), "duration" := JInt(duration),
                                                      "uploadLimit" := JNull, "downloadLimit" := JNull])))
  {
    var t := TargetFor(controllers[controllerId]);
    MissingTokenPrimesLogin(t, transport, AuthorizeGuest(mac, duration, None, None), JNull, 0);
  }

  // ----- the request -----

  datatype AuthRequest = AuthRequest(accessType: Json, email: Json, name: Json, phone: Json, provider: Json, accessToken: Json)

  datatype AccessCase = FreeAccess | VoucherAccess | SocialAccess | UnknownAccess

  /**
   * PHP 8's loose `==` between a value and a case label that is not a
   * numeric string: booleans compare with the label's truthiness, null with the
   * empty string, integers as their decimal text, arrays and objects never.
   */
  predicate LooseEquals(v: Json, word: string) {
    match v
    case JNull => word == ""
    case JBool(b) => b == TruthyStr(word)
    case JInt(i) => IntString(i) == word
    case JStr(s) => s == word
    case JList(_) => false
    case JObject(_) => false
    case JStdClass(_) => false
  }

  /** `switch ($accessType)`: the first label that compares loosely equal. */
  function AccessCaseOf(v: Json): AccessCase {
    if LooseEquals(v, "free") then FreeAccess
    else if LooseEquals(v, "voucher") then VoucherAccess
    else if LooseEquals(v, "social") then SocialAccess
    else UnknownAccess
  }

  /**
   * A string selects the case it names; `true` falls into the first case,
   * free access; no integer, null, `false` or array selects any case.
   */
  lemma AccessCaseRule(v: Json)
    ensures v.JStr? ==>
      (AccessCaseOf(v) == FreeAccess <==> v.s == "free")
      && (AccessCaseOf(v) == VoucherAccess <==> v.s == "voucher")
      && (AccessCaseOf(v) == SocialAccess <==> v.s == "social")
    ensures v == JBool(true) ==> AccessCaseOf(v) == FreeAccess
    ensures !v.JStr? && v != JBool(true) ==> AccessCaseOf(v) == UnknownAccess
  {
    if v.JInt? {
      var text := IntString(v.i);
      assert text[0] == '-' || '0' <= text[0] <= '9';
      assert text != "free" && text != "voucher" && text != "social" by {
        assert "free"[0] == 'f' && "voucher"[0] == 'v' && "social"[0] == 's';
      }
    }
  }

  /** What `verifySocialToken` extracts: the profile's id, name and e-mail. */
  datatype SocialUser = SocialUser(id: Json, name: Json, email: Json)

  const FacebookProfileUrl: string := "https://graph.facebook.com/me?fields=id,name,email&access_token="
  const GoogleProfileUrl: string := "https://www.googleapis.com/oauth2/v1/userinfo?access_token="

  /** A fetched profile yields a user only when it carries an e-mail. */
  function ProfileUser(profile: Json): (u: Option<SocialUser>)
    ensures u.Some? <==> Isset(profile, "email")
    ensures u.Some? ==> u.value == SocialUser(Get(profile, "id"), Get(profile, "name"), Get(profile, "email"))
  {
    if Isset(profile, "email") then Some(SocialUser(Get(profile, "id"), Get(profile, "name"), Get(profile, "email")))
    else None
  }

  /** `verifySocialToken($provider, $token)`: only Facebook and Google (compared strictly) are known. */
  function VerifySocialToken(provider: Json, token: Json, fetch: string -> Json): (u: Option<SocialUser>)
    ensures u.Some? ==> provider == JStr("facebook") || provider == JStr("google")
    ensures provider == JStr("facebook") ==> u == ProfileUser(fetch(FacebookProfileUrl + Interpolate(token)))
    ensures provider == JStr("google") ==> u == ProfileUser(fetch(GoogleProfileUrl + Interpolate(token)))
    ensures u.Some? ==> u.value.email != JNull
  {
    if provider == JStr("facebook") then ProfileUser(fetch(FacebookProfileUrl + Interpolate(token)))
    else if provider == JStr("google") then ProfileUser(fetch(GoogleProfileUrl + Interpolate(token)))
    else None
  }

  /** What the endpoint returns to an admitted guest. */
  datatype Grant = Grant(sessionId: nat, durationMinutes: int, dataLimitMb: Option<int>, message: string)

  /** A known provider, for which `verifySocialToken` puts the token into the profile URL. */
  predicate KnownProvider(provider: Json) {
    provider == JStr("facebook") || provider == JStr("google")
  }

  /**
   * The refusals, in the order the endpoint tries them, and the requests
   * that end with an uncaught error before anything is written: an object
   * as the e-mail cannot be bound to the INSERT, and an object as the token
   * of a known provider cannot be put into the profile URL.
   */
  function AuthGuard(req: AuthRequest, fetch: string -> Json): Option<Response<Grant>> {
    if Empty(req.accessType) then Some(Error(400, "Access type is required"))
    else
      match AccessCaseOf(req.accessType)
      case FreeAccess =>
        if Empty(req.email) then Some(Error(400, "Email is required for free access"))
        else if req.email.JStdClass? then Some(Aborted)
        else None
      case VoucherAccess =>
        Some(Error(400, "Use vouchers/redeem.php for voucher authentication"))
      case SocialAccess =>
        if Empty(req.provider) || Empty(req.accessToken) then Some(Error(400, "Provider and access token required"))
        else if KnownProvider(req.provider) && req.accessToken.JStdClass? then Some(Aborted)
        else if VerifySocialToken(req.provider, req.accessToken, fetch).None? then Some(Error(401, "Invalid social login token"))
        else None
      case UnknownAccess =>
        Some(Error(400, "Invalid access type"))
  }

  /**
   * A guest is admitted exactly when free access comes with a non-object
   * e-mail or a social login with a provider and token that verify; an
   * object e-mail or token ends with an uncaught error; every other refusal
   * is an error with status 400, except a token that does not verify (401).
   * An object as the access type selects no case.
   */
  lemma AuthGuardLadder(req: AuthRequest, fetch: string -> Json)
    ensures AuthGuard(req, fetch).None? <==>
      !Empty(req.accessType)
      && ((AccessCaseOf(req.accessType) == FreeAccess && !Empty(req.email) && !req.email.JStdClass?)
          || (AccessCaseOf(req.accessType) == SocialAccess && !Empty(req.provider) && !Empty(req.accessToken)
              && !req.accessToken.JStdClass? && VerifySocialToken(req.provider, req.accessToken, fetch).Some?))
    ensures AuthGuard(req, fetch) == Some(Aborted) <==>
      !Empty(req.accessType)
      && ((AccessCaseOf(req.accessType) == FreeAccess && req.email.JStdClass?)
          || (AccessCaseOf(req.accessType) == SocialAccess && !Empty(req.provider)
              && KnownProvider(req.provider) && req.accessToken.JStdClass?))
    ensures AuthGuard(req, fetch).Some? && AuthGuard(req, fetch) != Some(Aborted) ==>
      AuthGuard(req, fetch).value.Error?
      && (AuthGuard(req, fetch).value.code == 401 <==>
            !Empty(req.accessType) && AccessCaseOf(req.accessType) == SocialAccess
            && !Empty(req.provider) && !Empty(req.accessToken)
            && !(KnownProvider(req.provider) && req.accessToken.JStdClass?)
            && VerifySocialToken(req.provider, req.accessToken, fetch).None?)
      && (AuthGuard(req, fetch).value.code == 400 || AuthGuard(req, fetch).value.code == 401)
    ensures !Empty(req.accessType) && AccessCaseOf(req.accessType) == VoucherAccess ==> AuthGuard(req, fetch).Some?
    ensures req.accessType.JStdClass? ==> AuthGuard(req, fetch) == Some(Error(400, "Invalid access type"))
  {
  }

  /** An admitted guest. */
  datatype Guest =
    | FreeGuest(email: Json, name: Json, phone: Json)
    | SocialGuest(provider: Json, user: SocialUser)

  function GuestOf(req: AuthRequest, fetch: string -> Json): Guest
    requires AuthGuard(req, fetch).None?
  {
    if AccessCaseOf(req.accessType) == FreeAccess then FreeGuest(req.email, req.name, req.phone)
    else SocialGuest(req.provider, VerifySocialToken(req.provider, req.accessToken, fetch).value)
  }

  /** The session's username: the free guest's e-mail, or the social profile's. */
  function GuestUsername(g: Guest): string {
    match g
    case FreeGuest(email, _, _) => Interpolate(email)
    case SocialGuest(_, user) => Interpolate(user.email)
  }

  /** The device information stored with the session (`json_encode` of these keys). */
  function GuestDeviceInfo(g: Guest, userAgent: Option<string>): Json {
    match g
    case FreeGuest(email, name, phone) =>
      JObject(map["name" := (if name == JNull then JStr("Guest") else name), "email" := email, "phone" := phone,
                  "user_agent" := OfStr(userAgent)])
    case SocialGuest(provider, user) =>
      JObject(map["name" := user.name, "email" := user.email, "provider" := provider])
  }

  /** Free access lasts 30 minutes, a social login an hour. */
  const FreeSeconds: int := 30 * SecondsPerMinute
  const SocialSeconds: int := 60 * SecondsPerMinute

  /** The time the controller is asked to authorise the guest for, in seconds. */
  function GuestSeconds(g: Guest): int {
    if g.FreeGuest? then FreeSeconds else SocialSeconds
  }

  /** The data returned with "Authentication successful". */
  function GuestGrant(g: Guest, sessionId: nat): (r: Grant)
    ensures r.sessionId == sessionId
    ensures r.durationMinutes * SecondsPerMinute == GuestSeconds(g)
  {
    match g
    case FreeGuest(_, _, _) => Grant(sessionId, 30, Some(100), "Free access granted for 30 minutes")
    case SocialGuest(provider, _) => Grant(sessionId, 60, None, "Access granted via " + Interpolate(provider))
  }

  /** The row an admitted guest's session is inserted as. */
  function GuestRow(g: Guest, digest: Md5Hex, remoteAddr: string, userAgent: Option<string>,
                    controllers: map<nat, ControllerRow>, plans: map<nat, Plan>,
                    sanitize: string -> string, now: int): (row: SessionRow)
    ensures row.status == SessionStatus.Active && row.startTime == now && row.endTime.None?
    ensures row.macAddress == sanitize(GetMacAddress(digest)) && row.ipAddress == sanitize(remoteAddr)
    ensures row.controllerId == GetDefaultController(controllers) && row.planId == GetFreePlanId(plans)
    ensures row.username == Some(GuestUsername(g)) && row.voucherId.None?
    ensures row.deviceInfo == Some(GuestDeviceInfo(g, userAgent))
  {
    SessionRow(GetDefaultController(controllers), sanitize(GetMacAddress(digest)), sanitize(remoteAddr),
               Some(GuestUsername(g)), GetFreePlanId(plans), None, now, None, None, None, SessionStatus.Active,
               Some(GuestDeviceInfo(g, userAgent)))
  }

  /** The `Session` object the endpoint fills in for an admitted guest, and its `create()`. */
  method InsertGuestSession(db: Db, g: Guest, digest: Md5Hex, remoteAddr: string, userAgent: Option<string>,
                            sanitize: string -> string, now: int, raises: bool)
    returns (r: Exec<bool>, id: nat, controllerId: nat, mac: string)
    requires db.Valid()
    modifies db`sessions, db`nextSessionId
    ensures db.Valid()
    ensures r == if raises then Raised else Done(true)
    ensures controllerId == GetDefaultController(db.controllers) && mac == sanitize(GetMacAddress(digest))
    ensures !raises ==> id == old(db.nextSessionId) && id !in old(db.sessions)
                        && db.sessions == old(db.sessions)[id := GuestRow(g, digest, remoteAddr, userAgent, db.controllers,
                                                                          db.plans, sanitize, now)]
    ensures raises ==> db.sessions == old(db.sessions) && db.nextSessionId == old(db.nextSessionId)
  {
    var session := new SessionModel.Session(db);
    session.macAddress := GetMacAddress(digest);
    session.ipAddress := remoteAddr;
    session.username := Some(GuestUsername(g));
    session.controllerId := GetDefaultController(db.controllers);
    session.planId := GetFreePlanId(db.plans);
    session.deviceInfo := Some(GuestDeviceInfo(g, userAgent));
    r := session.Create(now, sanitize, raises);
    id := if r.Done? then session.id.value else 0;
    controllerId := session.controllerId;
    mac := session.macAddress;
  }

  /**
   * `authenticate.php`. Returns the response and, beside it, what became of
   * the authorisation on the controller, which the response does not
   * reflect.
   */
  method HandleAuthenticate(db: Db, req: AuthRequest, remoteAddr: string, userAgent: Option<string>,
                            md5: string -> Md5Hex, fetch: string -> Json, transport: nat -> CurlResult,
                            sanitize: string -> string, now: int, raises: bool)
    returns (resp: Response<Grant>, authorization: Authorization)
    requires db.Valid()
    modifies db`sessions, db`nextSessionId
    ensures db.Valid()
    ensures AuthGuard(req, fetch).Some? ==>
      resp == AuthGuard(req, fetch).value && authorization == NotAttempted
      && db.sessions == old(db.sessions) && db.nextSessionId == old(db.nextSessionId)
    ensures AuthGuard(req, fetch).None? && raises ==>
      resp == Aborted && authorization == NotAttempted
      && db.sessions == old(db.sessions) && db.nextSessionId == old(db.nextSessionId)
    ensures AuthGuard(req, fetch).None? && !raises ==>
      var g := GuestOf(req, fetch);
      var id := old(db.nextSessionId);
      id !in old(db.sessions)
      && db.sessions == old(db.sessions)[id := GuestRow(g, md5(remoteAddr), remoteAddr, userAgent, db.controllers,
                                                        db.plans, sanitize, now)]
      && resp == Success(200, "Authentication successful", GuestGrant(g, id))
      && authorization == AuthorizationSpec(db.controllers, GetDefaultController(db.controllers),
                                            sanitize(GetMacAddress(md5(remoteAddr))), GuestSeconds(g), transport)
  {
    var guard := AuthGuard(req, fetch);
    if guard.Some? {
      return guard.value, NotAttempted;
    }
    var g := GuestOf(req, fetch);
    var r, id, controllerId, mac := InsertGuestSession(db, g, md5(remoteAddr), remoteAddr, userAgent, sanitize, now, raises);
    if r.Raised? {
      return Aborted, NotAttempted;
    }
    if !r.value {
      return Error(500, "Failed to create session"), NotAttempted;
    }
    authorization := AuthorizeOnController(db, controllerId, mac, GuestSeconds(g), transport);
    resp := Success(200, "Authentication successful", GuestGrant(g, id));
  }
}
