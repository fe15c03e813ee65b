/**
 * The controller store (`class Controller`): the gateway password is stored
 * base64-encoded (RFC 4648 section 4) and decoded on read; the field-wise
 * update; the name-ordered listing of active controllers.
 */
module ControllerModel {
  import opened Common
  import opened Schema
  import Base64
  import Query

  /** The keys of an update request; present means `isset`. */
  datatype ControllerPatch = ControllerPatch(
    name: Option<string>,
    ipAddress: Option<string>,
    port: Option<int>,
    username: Option<string>,
    password: Option<seq<Byte>>,   // plaintext
    siteId: Option<string>,
    status: Option<string>,
    version: Option<string>,
    locationId: Option<nat>)       // accepted by callers, not a column `update` writes

  /** The values an UPDATE binds, in stored form (the password already encoded). */
  datatype SetClause = SetClause(
    name: Option<string>,
    ipAddress: Option<string>,
    port: Option<int>,
    username: Option<string>,
    password: Option<string>,
    siteId: Option<string>,
    status: Option<string>,
    version: Option<string>)

  /** Some key `update` recognises is present. */
  predicate Recognised(d: ControllerPatch) {
    d.name.Some? || d.ipAddress.Some? || d.port.Some? || d.username.Some? || d.password.Some?
    || d.siteId.Some? || d.status.Some? || d.version.Some?
  }

  function Pick<T>(o: Option<T>, current: T): T {
    if o.Some? then o.value else current
  }

  /** The values `update` binds: text sanitised, the password base64-encoded. */
  function Bound(d: ControllerPatch, sanitize: string -> string): SetClause {
    SetClause(if d.name.Some? then Some(sanitize(d.name.value)) else None,
              if d.ipAddress.Some? then Some(sanitize(d.ipAddress.value)) else None,
              d.port,
              if d.username.Some? then Some(sanitize(d.username.value)) else None,
              if d.password.Some? then Some(Base64.Encode(d.password.value)) else None,
              d.siteId, d.status, d.version)
  }

  function Apply(c: ControllerRow, s: SetClause): ControllerRow {
    c.(name := Pick(s.name, c.name), ipAddress := Pick(s.ipAddress, c.ipAddress), port := Pick(s.port, c.port),
       username := Pick(s.username, c.username), password := Pick(s.password, c.password),
       siteId := Pick(s.siteId, c.siteId), status := Pick(s.status, c.status),
       version := if s.version.Some? then s.version else c.version)
  }

  /** The row after an update: every present recognised key overwrites its column. */
  function Patched(c: ControllerRow, d: ControllerPatch, sanitize: string -> string): (q: ControllerRow)
    ensures q.locationId == c.locationId
  {
    c.(name := if d.name.Some? then sanitize(d.name.value) else c.name,
       ipAddress := if d.ipAddress.Some? then sanitize(d.ipAddress.value) else c.ipAddress,
       port := Pick(d.port, c.port),
       username := if d.username.Some? then sanitize(d.username.value) else c.username,
       password := if d.password.Some? then Base64.Encode(d.password.value) else c.password,
       siteId := Pick(d.siteId, c.siteId),
       status := Pick(d.status, c.status),
       version := if d.version.Some? then d.version else c.version)
  }

  lemma ApplyIsPatched(c: ControllerRow, d: ControllerPatch, sanitize: string -> string)
    ensures Apply(c, Bound(d, sanitize)) == Patched(c, d, sanitize)
  {
  }

  /** A column without its key keeps its value, and the location is never changed by an update. */
  lemma PatchedKeepsAbsent(c: ControllerRow, d: ControllerPatch, sanitize: string -> string)
    ensures var q := Patched(c, d, sanitize);
      q.locationId == c.locationId
      && (d.name.None? ==> q.name == c.name) && (d.ipAddress.None? ==> q.ipAddress == c.ipAddress)
      && (d.port.None? ==> q.port == c.port) && (d.username.None? ==> q.username == c.username)
      && (d.password.None? ==> q.password == c.password) && (d.siteId.None? ==> q.siteId == c.siteId)
      && (d.status.None? ==> q.status == c.status) && (d.version.None? ==> q.version == c.version)
      && (!Recognised(d) ==> q == c)
  {
  }

  /** Every password the store encodes decodes back to itself. */
  lemma EncodedPasswordsDecode()
    ensures forall pw :: Base64.Decode(Base64.Encode(pw)) == Some(pw)
  {
    forall pw {
      Base64.RoundTrip(pw);
    }
  }

  /** A supplied password is never stored as plaintext: the stored text is its base64 form. */
  lemma PatchedStoresEncoded(c: ControllerRow, d: ControllerPatch, sanitize: string -> string)
    requires d.password.Some?
    ensures Base64.Decode(Patched(c, d, sanitize).password) == d.password
  {
    Base64.RoundTrip(d.password.value);
  }

  /** `getById`: the row with its password decoded (`None` when the stored text is not base64). */
  datatype ControllerView = ControllerView(id: nat, columns: ControllerRow, password: Option<seq<Byte>>)

  /** One row of `getActiveControllers` (`SELECT *`: the password stays encoded). */
  datatype ControllerEntry = ControllerEntry(id: nat, row: ControllerRow)

  predicate IsActive(c: ControllerRow) {
    c.status == "active"
  }

  function ActiveWhere(): ControllerRow -> bool {
    (c: ControllerRow) => IsActive(c)
  }

  function Entry(): (nat, ControllerRow) -> ControllerEntry {
    (id: nat, c: ControllerRow) => ControllerEntry(id, c)
  }

  function EntryId(): ControllerEntry -> nat {
    (e: ControllerEntry) => e.id
  }

  /** `ORDER BY name`. */
  function ByName(): (ControllerEntry, ControllerEntry) -> bool {
    (a: ControllerEntry, b: ControllerEntry) => Query.LexLe(a.row.name, b.row.name)
  }

  /** The controller store over a database connection. */
  class Controller {
    const conn: Db
    var id: Option<nat>
    var name: string
    var ipAddress: string
    var port: int
    var username: string
    var password: seq<Byte>   // plaintext, as the caller sets it
    var siteId: string
    var locationId: Option<nat>
    var status: string

    constructor(db: Db)
      ensures conn == db && id.None? && locationId.None?
    {
      conn := db;
      id := None;
      name := "";
      ipAddress := "";
      port := 0;
      username := "";
      password := [];
      siteId := "";
      locationId := None;
      status := "";
    }

    /** The row `create` inserts: the object's fields with the password base64-encoded. */
    function NewRow(): ControllerRow
      reads this
    {
      ControllerRow(name, ipAddress, port, username, Base64.Encode(password), siteId, locationId, status, None)
    }

    /**
     * `getById($id)`: the row with its stored password decoded; whatever
     * password was stored encoded reads back as itself.
     */
    function GetById(key: nat): (r: Option<ControllerView>)
      reads conn
      ensures r.Some? <==> key in conn.controllers
      ensures r.Some? ==> r.value.id == key && r.value.columns == conn.controllers[key]
      ensures r.Some? ==> forall pw :: conn.controllers[key].password == Base64.Encode(pw) ==> r.value.password == Some(pw)
    {
      EncodedPasswordsDecode();
      if key in conn.controllers then
        Some(ControllerView(key, conn.controllers[key], Base64.Decode(conn.controllers[key].password)))
      else
        None
    }

    /**
     * `create()`: sanitise name, address and username, insert the row with
     * the encoded password and take its id; the new row then reads back
     * with the original password. `raises` is whether the INSERT raises; the
     * method then never reaches its `return false`.
     */
    method Create(sanitize: string -> string, raises: bool) returns (r: Exec<bool>)
      requires conn.Valid()
      modifies this, conn`controllers, conn`nextControllerId
      ensures conn.Valid()
      ensures name == sanitize(old(name)) && ipAddress == sanitize(old(ipAddress)) && username == sanitize(old(username))
      ensures port == old(port) && password == old(password) && siteId == old(siteId)
      ensures locationId == old(locationId) && status == old(status)
      ensures r == if raises then Raised else Done(true)
      ensures !raises ==> id == Some(old(conn.nextControllerId)) && id.value !in old(conn.controllers)
                          && conn.controllers == old(conn.controllers)[id.value := NewRow()]
                          && conn.nextControllerId == old(conn.nextControllerId) + 1
      ensures !raises ==> GetById(id.value).Some? && GetById(id.value).value.password == Some(password)
      ensures raises ==> id == old(id) && conn.controllers == old(conn.controllers)
                         && conn.nextControllerId == old(conn.nextControllerId)
    {
      name := sanitize(name);
      ipAddress := sanitize(ipAddress);
      username := sanitize(username);
      if raises {
        return Raised;
      }
      var key := conn.nextControllerId;
      conn.controllers := conn.controllers[key := NewRow()];
      conn.nextControllerId := key + 1;
      id := Some(key);
      return Done(true);
    }

    /** The SET clause of `update`: one column per recognised key present, with its bound value. */
    static method CollectColumns(data: ControllerPatch, sanitize: string -> string) returns (fields: seq<string>, params: SetClause)
      ensures |fields| == 0 <==> !Recognised(data)
      ensures params == Bound(data, sanitize)
    {
      fields := [];
      var name, ipAddress, port, username := None, None, None, None;
      var password, siteId, status, version := None, None, None, None;
      if data.name.Some? {
        fields := fields + ["name"];
        name := Some(sanitize(data.name.value));
      }
      assert name == Bound(data, sanitize).name;
      if data.ipAddress.Some? {
        fields := fields + ["ip_address"];
        ipAddress := Some(sanitize(data.ipAddress.value));
      }
      assert ipAddress == Bound(data, sanitize).ipAddress;
      if data.port.Some? {
        fields := fields + ["port"];
        port := data.port;
      }
      assert port == Bound(data, sanitize).port;
      if data.username.Some? {
        fields := fields + ["username"];
        username := Some(sanitize(data.username.value));
      }
      assert username == Bound(data, sanitize).username;
      if data.password.Some? {
        fields := fields + ["password"];
        password := Some(Base64.Encode(data.password.value));
      }
      assert password == Bound(data, sanitize).password;
      if data.siteId.Some? {
        fields := fields + ["site_id"];
        siteId := data.siteId;
      }
      assert siteId == Bound(data, sanitize).siteId;
      if data.status.Some? {
        fields := fields + ["status"];
        status := data.status;
      }
      assert status == Bound(data, sanitize).status;
      if data.version.Some? {
        fields := fields + ["version"];
        version := data.version;
      }
      assert version == Bound(data, sanitize).version;
      params := SetClause(name, ipAddress, port, username, password, siteId, status, version);
    }

    /**
     * `update($id, $data)`: with no recognised key, refuse; otherwise,
     * unless the UPDATE raises (`raises`), write exactly those columns of
     * that row. A new password is re-encoded, so it reads back as supplied.
     */
    method Update(key: nat, data: ControllerPatch, sanitize: string -> string, raises: bool) returns (r: Exec<bool>)
      modifies conn`controllers
      ensures r == if !Recognised(data) then Done(false) else if raises then Raised else Done(true)
      ensures conn.controllers == if r == Done(true) && key in old(conn.controllers)
                                  then old(conn.controllers)[key := Patched(old(conn.controllers)[key], data, sanitize)]
                                  else old(conn.controllers)
      ensures r == Done(true) && key in old(conn.controllers) && data.password.Some? ==> GetById(key).value.password == data.password
    {
      var fields, params := CollectColumns(data, sanitize);
      if |fields| == 0 {
        return Done(false);
      }
      if raises {
        return Raised;
      }
      if key in conn.controllers {
        ApplyIsPatched(conn.controllers[key], data, sanitize);
        conn.controllers := conn.controllers[key := Apply(conn.controllers[key], params)];
      }
      return Done(true);
    }

    /** `getActiveControllers()`: exactly the active controllers, each once, ordered by name. */
    method GetActiveControllers() returns (r: seq<ControllerEntry>)
      ensures forall i, j :: 0 <= i < j < |r| ==> Query.LexLe(r[i].row.name, r[j].row.name)
      ensures (set e | e in r :: e.id) == (set k | k in conn.controllers && IsActive(conn.controllers[k]))
      ensures |r| == |set k | k in conn.controllers && IsActive(conn.controllers[k])|
      ensures forall e :: e in r ==> e.id in conn.controllers && e.row == conn.controllers[e.id] && IsActive(e.row)
    {
      Query.LexKeyOrder((e: ControllerEntry) => e.row.name, ByName());
      r := Query.SelectOrdered(conn.controllers, ActiveWhere(), Entry(), EntryId(), ByName());
      assert (set e | e in r :: e.id) == (set e | e in r :: EntryId()(e));
      assert Query.SelectedKeys(conn.controllers, ActiveWhere()) == (set k | k in conn.controllers && IsActive(conn.controllers[k]));
      forall e | e in r ensures IsActive(e.row) {
        assert e.id in Query.SelectedKeys(conn.controllers, ActiveWhere());
      }
    }
  }
}
