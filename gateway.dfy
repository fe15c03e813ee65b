/**
 * How the endpoints reach a controller: an `OmadaAPI` built from a row of
 * `controllers`, with the stored password decoded and the row's site.
 */
module Gateway {
  import opened Common
  import opened Php
  import opened Schema
  import Base64
  import opened OmadaApi

  /** The decoded password as the client receives it: the bytes as a string, or `false` when decoding fails. */
  function PasswordValue(decoded: Option<seq<Byte>>): Json {
    if decoded.Some? then JStr(Chars(decoded.value)) else JBool(false)
  }

  /** `new OmadaAPI($c['ip_address'], $c['port'], $c['username'], <decoded password>, $c['site_id'])`. */
  function TargetFor(row: ControllerRow): (t: Target)
    ensures t.host == row.ipAddress && t.port == row.port && t.username == row.username && t.siteId == row.siteId
  {
    Target(row.ipAddress, row.port, row.username, PasswordValue(Base64.Decode(row.password)), row.siteId)
  }

  /** A password stored by the controller store reaches the client as the original bytes. */
  lemma TargetPassword(row: ControllerRow, pw: seq<Byte>)
    requires row.password == Base64.Encode(pw)
    ensures TargetFor(row).password == JStr(Chars(pw))
  {
    Base64.RoundTrip(pw);
  }
}
