/**
 * The session endpoints: `sessions/create.php` (guards, defaults, insert)
 * and `sessions/sessions_terminate.php` (dispatch on id versus MAC).
 */
module SessionApi {
  import opened Common
  import opened Php
  import opened Schema
  import opened Responses
  import Validator
  import opened SessionModel

  /** The create request; absent optional fields are `None`. */
  datatype CreateRequest = CreateRequest(
    macAddress: Option<string>,
    controllerId: Option<nat>,
    ipAddress: Option<string>,
    username: Option<string>,
    planId: Option<nat>,
    voucherId: Option<nat>,
    deviceInfo: Option<Json>)

  /** What a successful create answers: the new id, the stored MAC and the start time. */
  datatype SessionCreated = SessionCreated(sessionId: nat, macAddress: string, startTime: int)

  const MissingTarget: string := "MAC address and controller ID are required"
  const BadMacFormat: string := "Invalid MAC address format"

  /** The guards of `create.php`: MAC and controller present, then the MAC pattern. */
  function CreateGuard(req: CreateRequest): Option<Response<SessionCreated>> {
    if Empty(OfStr(req.macAddress)) || Empty(OfInt(req.controllerId)) then Some(Error(400, MissingTarget))
    else if !Validator.MacAddress(req.macAddress.value) then Some(Error(400, BadMacFormat))
    else None
  }

  /** A create request reaches the store iff MAC and controller are present and the MAC passes the pattern as written; a standard MAC never does. */
  lemma CreateGuardLadder(req: CreateRequest)
    ensures CreateGuard(req).None? <==>
      req.macAddress.Some? && req.controllerId.Some? && req.controllerId.value != 0 && Validator.MacAddress(req.macAddress.value)
    ensures req.macAddress.Some? && |req.macAddress.value| == 17 ==> CreateGuard(req).Some?
  {
    if req.macAddress.Some? {
      var mac := req.macAddress.value;
      Validator.MacAddressAccepts(mac);
      if Validator.MacAddress(mac) {
        assert |mac| >= 11;
        assert !Empty(OfStr(req.macAddress));
      }
    }
  }

  /** The row `create.php` inserts: the IP defaults to the client's address, the other optional fields to null. */
  function CreatedRow(req: CreateRequest, remoteAddr: string, sanitize: string -> string, now: int): (row: SessionRow)
    requires req.macAddress.Some? && req.controllerId.Some?
    ensures row.status == Active && row.startTime == now && row.endTime.None? && row.durationMinutes.None?
    ensures row.ipAddress == sanitize(if req.ipAddress.Some? then req.ipAddress.value else remoteAddr)
    ensures row.username == req.username && row.planId == req.planId && row.voucherId == req.voucherId
    ensures row.deviceInfo == req.deviceInfo
  {
    SessionRow(req.controllerId.value, sanitize(req.macAddress.value),
               sanitize(if req.ipAddress.Some? then req.ipAddress.value else remoteAddr),
               req.username, req.planId, req.voucherId, now, None, None, None, Active, req.deviceInfo)
  }

  /** The `Session` object `create.php` fills in, and its `create()`. */
  method InsertSession(db: Db, req: CreateRequest, remoteAddr: string, sanitize: string -> string, now: int, raises: bool)
    returns (r: Exec<bool>, id: nat)
    requires db.Valid() && req.macAddress.Some? && req.controllerId.Some?
    modifies db`sessions, db`nextSessionId
    ensures db.Valid()
    ensures r == if raises then Raised else Done(true)
    ensures !raises ==> id == old(db.nextSessionId) && id !in old(db.sessions)
                        && db.sessions == old(db.sessions)[id := CreatedRow(req, remoteAddr, sanitize, now)]
    ensures raises ==> db.sessions == old(db.sessions) && db.nextSessionId == old(db.nextSessionId)
  {
    var session := new Session(db);
    session.controllerId := req.controllerId.value;
    session.macAddress := req.macAddress.value;
    session.ipAddress := if req.ipAddress.Some? then req.ipAddress.value else remoteAddr;
    session.username := req.username;
    session.planId := req.planId;
    session.voucherId := req.voucherId;
    session.deviceInfo := req.deviceInfo;
    r := session.Create(now, sanitize, raises);
    id := if r.Done? then session.id.value else 0;
  }

  /**
   * `create.php`; `remoteAddr` is `$_SERVER['REMOTE_ADDR']`, `raises` whether
   * the INSERT raises. `create()` never returns false, so the 500 "Unable to
   * create session" branch is never taken; a raising INSERT ends the script.
   */
  method HandleCreate(db: Db, req: CreateRequest, remoteAddr: string, sanitize: string -> string, now: int, raises: bool)
    returns (resp: Response<SessionCreated>)
    requires db.Valid()
    modifies db`sessions, db`nextSessionId
    ensures db.Valid()
    ensures CreateGuard(req).Some? ==>
      resp == CreateGuard(req).value && db.sessions == old(db.sessions) && db.nextSessionId == old(db.nextSessionId)
    ensures CreateGuard(req).None? && !raises ==>
      var id := old(db.nextSessionId);
      resp == Success(201, "Session created successfully", SessionCreated(id, sanitize(req.macAddress.value), now))
      && id !in old(db.sessions) && db.sessions == old(db.sessions)[id := CreatedRow(req, remoteAddr, sanitize, now)]
    ensures CreateGuard(req).None? && raises ==>
      resp == Aborted && db.sessions == old(db.sessions) && db.nextSessionId == old(db.nextSessionId)
  {
    var guard := CreateGuard(req);
    if guard.Some? {
      return guard.value;
    }
    var r, id := InsertSession(db, req, remoteAddr, sanitize, now, raises);
    if r.Raised? {
      return Aborted;
    }
    if r.value {
      return Success(201, "Session created successfully", SessionCreated(id, sanitize(req.macAddress.value), now));
    }
    return Error(500, "Unable to create session");
  }

  /** The terminate request. */
  datatype TerminateRequest = TerminateRequest(id: Option<nat>, macAddress: Option<string>, reason: Option<string>)

  datatype Route = ById(id: nat) | ByMac(mac: string) | NoTarget

  /** A present id wins; otherwise a present MAC; otherwise nothing to terminate. */
  function TerminateRoute(req: TerminateRequest): (r: Route)
    ensures r.ById? <==> !Empty(OfInt(req.id))
    ensures r.ByMac? <==> Empty(OfInt(req.id)) && !Empty(OfStr(req.macAddress))
    ensures r.ById? ==> r.id == req.id.value
    ensures r.ByMac? ==> r.mac == req.macAddress.value
  {
    if !Empty(OfInt(req.id)) then ById(req.id.value)
    else if !Empty(OfStr(req.macAddress)) then ByMac(req.macAddress.value)
    else NoTarget
  }

  const DefaultReason: string := "manual_disconnect"

  /** The reason logged with the termination; the store ignores it. */
  function ReasonOf(req: TerminateRequest): (reason: string)
    ensures req.reason.None? ==> reason == DefaultReason
    ensures req.reason.Some? ==> reason == req.reason.value
  {
    if req.reason.Some? then req.reason.value else DefaultReason
  }

  const Terminated: string := "Session terminated successfully"
  const TerminateFailed: string := "Unable to terminate session"

  /**
   * `sessions_terminate.php`; `raises` is whether the store's UPDATE raises.
   * The model methods never return false, so the 500 `TerminateFailed`
   * branch is never taken; a raising UPDATE ends the script.
   */
  method HandleTerminate(db: Db, req: TerminateRequest, now: int, raises: bool) returns (resp: Response<()>)
    requires db.Valid()
    modifies db`sessions
    ensures db.Valid()
    ensures TerminateRoute(req).NoTarget? ==>
      resp == Error(400, "Session ID or MAC address is required") && db.sessions == old(db.sessions)
    ensures !TerminateRoute(req).NoTarget? ==>
      resp == (if raises then Aborted else Success(200, Terminated, ()))
    ensures TerminateRoute(req).ById? ==>
      db.sessions == if raises then old(db.sessions) else TerminateById(old(db.sessions), req.id.value, now)
    ensures TerminateRoute(req).ByMac? ==>
      db.sessions == if raises then old(db.sessions) else TerminateMac(old(db.sessions), req.macAddress.value, now)
  {
    var route := TerminateRoute(req);
    if route.NoTarget? {
      return Error(400, "Session ID or MAC address is required");
    }
    var reason := ReasonOf(req);
    var session := new Session(db);
    var r: Exec<bool>;
    if route.ById? {
      r := session.Terminate(route.id, reason, now, raises);
    } else {
      r := session.TerminateByMac(route.mac, now, raises);
    }
    if r.Raised? {
      return Aborted;
    }
    if r.value {
      return Success(200, Terminated, ());
    }
    return Error(500, TerminateFailed);
  }

  /**
   * Terminating a present id ignores any MAC, and succeeds when the UPDATE
   * does not raise, even if no session has that id (the table is then unchanged).
   */
  lemma TerminateIdWins(sessions: map<nat, SessionRow>, req: TerminateRequest, now: int)
    requires req.id.Some? && req.id.value != 0
    ensures TerminateRoute(req) == ById(req.id.value)
    ensures TerminateRoute(req.(macAddress := None)) == TerminateRoute(req)
    ensures req.id.value !in sessions ==> TerminateById(sessions, req.id.value, now) == sessions
  {
  }
}
