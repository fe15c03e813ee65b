/**
 * `omada/omada_test_connection.php`: test a stored controller and record
 * the outcome in its row, `active` with the reported version or `error`.
 */
module OmadaTest {
  import opened Common
  import opened Php
  import opened Schema
  import opened Responses
  import opened OmadaApi
  import opened Gateway
  import ControllerModel

  /** `$result['data']['result']['version'] ?? 'unknown'`. */
  function VersionOf(result: ConnectionTest): (v: string)
    ensures Get(Get(result.data, "result"), "version") == JNull ==> v == "unknown"
    ensures Get(Get(result.data, "result"), "version").JStr? ==> v == Get(Get(result.data, "result"), "version").s
  {
    var version := Get(Get(result.data, "result"), "version");
    if version == JNull then "unknown" else Interpolate(version)
  }

  /** The update a successful test writes. */
  function ActivePatch(version: string): ControllerModel.ControllerPatch {
    ControllerModel.ControllerPatch(None, None, None, None, None, None, Some("active"), Some(version), None)
  }

  /** The update a failed test writes. */
  function ErrorPatch(): ControllerModel.ControllerPatch {
    ControllerModel.ControllerPatch(None, None, None, None, None, None, Some("error"), None, None)
  }

  /** The status updates touch only the status and version columns. */
  lemma StatusPatches(row: ControllerRow, version: string, sanitize: string -> string)
    ensures ControllerModel.Patched(row, ActivePatch(version), sanitize) == row.(status := "active", version := Some(version))
    ensures ControllerModel.Patched(row, ErrorPatch(), sanitize) == row.(status := "error")
  {
  }

  /** A test whose login merely answers false still counts as a success, with version "unknown". */
  lemma FalseLoginIsUnknownVersion(t: Target, transport: nat -> CurlResult)
    requires LoginSpec(t, transport, JNull, 0).result == Normal(false)
    ensures TestSpec(t, transport, JNull, 0).success
    ensures VersionOf(TestSpec(t, transport, JNull, 0)) == "unknown"
  {
    TestConnectionRule(t, transport, JNull, 0);
  }

  /** What the test of a stored controller yields (a fresh client, so no token yet). */
  function TestOf(row: ControllerRow, transport: nat -> CurlResult): ConnectionTest {
    TestSpec(TargetFor(row), transport, JNull, 0)
  }

  /**
   * `omada_test_connection.php`. `transport` is the controller's HTTP
   * behaviour; `sanitize` the store's input filter (status and version
   * bypass it). `updateRaises` is whether the status UPDATE inside the `try`
   * raises: the `catch` then writes `error` with a second UPDATE
   * (`catchUpdateRaises`, uncaught) and answers 500 with the exception's
   * message `pdoMessage`.
   */
  method HandleTestConnection(db: Db, controllerId: Option<nat>, transport: nat -> CurlResult,
                              sanitize: string -> string, updateRaises: bool, catchUpdateRaises: bool,
                              pdoMessage: string)
    returns (resp: Response<ConnectionTest>)
    modifies db`controllers
    ensures Empty(OfInt(controllerId)) ==>
      resp == Error(400, "Controller ID is required") && db.controllers == old(db.controllers)
    ensures !Empty(OfInt(controllerId)) && controllerId.value !in old(db.controllers) ==>
      resp == Error(404, "Controller not found") && db.controllers == old(db.controllers)
    ensures !Empty(OfInt(controllerId)) && controllerId.value in old(db.controllers) ==>
      var id := controllerId.value;
      var row := old(db.controllers)[id];
      var t := TestOf(row, transport);
      (!updateRaises && t.success ==>
         resp == Success(200, "Connection successful", t)
         && db.controllers == old(db.controllers)[id := row.(status := "active", version := Some(VersionOf(t)))])
      && (!updateRaises && !t.success ==>
            resp == Error(500, t.message) && db.controllers == old(db.controllers)[id := row.(status := "error")])
      && (updateRaises && !catchUpdateRaises ==>
            resp == Error(500, "Connection failed: " + pdoMessage)
            && db.controllers == old(db.controllers)[id := row.(status := "error")])
      && (updateRaises && catchUpdateRaises ==> resp == Aborted && db.controllers == old(db.controllers))
  {
    if Empty(OfInt(controllerId)) {
      return Error(400, "Controller ID is required");
    }
    var id := controllerId.value;
    var controller := new ControllerModel.Controller(db);
    var found := controller.GetById(id);
    if found.None? {
      return Error(404, "Controller not found");
    }
    var row := found.value.columns;
    var omada := new OmadaAPI(transport, row.ipAddress, row.port, row.username, PasswordValue(found.value.password), row.siteId);
    var result := omada.TestConnection();
    StatusPatches(row, VersionOf(result), sanitize);
    var written: Exec<bool>;
    if result.success {
      written := controller.Update(id, ActivePatch(VersionOf(result)), sanitize, updateRaises);
      if written.Done? {
        return Success(200, "Connection successful", result);
      }
    } else {
      written := controller.Update(id, ErrorPatch(), sanitize, updateRaises);
      if written.Done? {
        return Error(500, result.message);
      }
    }
    // the `catch (Exception $e)` branch
    var recorded := controller.Update(id, ErrorPatch(), sanitize, catchUpdateRaises);
    if recorded.Raised? {
      return Aborted;
    }
    return Error(500, "Connection failed: " + pdoMessage);
  }
}
