/**
 * The session store (`class Session`): creation as `active`, termination by
 * id or by MAC, usage updates, the 24-hour sweep, the active-session listing
 * and the session statistics. `NOW()` is the parameter `now`, in seconds.
 */
module SessionModel {
  import opened Common
  import opened Php
  import opened Schema
  import Query

  /** `DATE_SUB(NOW(), INTERVAL 24 HOUR)`: active sessions started before this are swept. */
  const StaleAfter: int := 24 * SecondsPerHour

  /** The columns `terminate` and `terminateByMac` set. */
  function TerminatedRow(row: SessionRow, now: int): SessionRow {
    row.(status := SessionStatus.Terminated, endTime := Some(now), durationMinutes := Some(MinutesBetween(row.startTime, now)))
  }

  /** `terminate($id)`: `UPDATE ... WHERE id = :id`, whatever the row's status. */
  function TerminateById(sessions: map<nat, SessionRow>, id: nat, now: int): map<nat, SessionRow> {
    if id in sessions then sessions[id := TerminatedRow(sessions[id], now)] else sessions
  }

  /** `terminateByMac($mac)`: every active row with that MAC. */
  function TerminateMac(sessions: map<nat, SessionRow>, mac: string, now: int): map<nat, SessionRow> {
    map k | k in sessions ::
      if sessions[k].macAddress == mac && sessions[k].status == Active then TerminatedRow(sessions[k], now) else sessions[k]
  }

  /** `updateUsage($id, $mb)`. */
  function SetUsage(sessions: map<nat, SessionRow>, id: nat, dataUsedMb: Option<int>): map<nat, SessionRow> {
    if id in sessions then sessions[id := sessions[id].(dataUsedMb := dataUsedMb)] else sessions
  }

  predicate Stale(row: SessionRow, now: int) {
    row.status == Active && row.startTime < now - StaleAfter
  }

  /** `cleanupExpired()`: stale active rows become `expired` with `end_time` = now. */
  function ExpireStale(sessions: map<nat, SessionRow>, now: int): map<nat, SessionRow> {
    map k | k in sessions ::
      if Stale(sessions[k], now) then sessions[k].(status := SessionStatus.Expired, endTime := Some(now)) else sessions[k]
  }

  /**
   * Terminating by id changes that row alone, to `terminated` with the end
   * time and the whole minutes since its start, whatever its status was (so
   * a second termination restamps it).
   */
  lemma TerminateByIdEffect(sessions: map<nat, SessionRow>, id: nat, now: int, later: int)
    ensures var after := TerminateById(sessions, id, now);
      after.Keys == sessions.Keys
      && (forall k :: k in sessions && k != id ==> after[k] == sessions[k])
      && (id in sessions ==>
            after[id].status == SessionStatus.Terminated && after[id].endTime == Some(now)
            && after[id].durationMinutes == Some(MinutesBetween(sessions[id].startTime, now))
            && after[id] == sessions[id].(status := after[id].status, endTime := after[id].endTime,
                                          durationMinutes := after[id].durationMinutes))
      && (id in sessions ==> TerminateById(after, id, later)[id].endTime == Some(later))
  {
  }

  /** The recorded duration is the whole number of minutes the session lasted. */
  lemma TerminatedDuration(row: SessionRow, now: int)
    requires row.startTime <= now
    ensures var d := TerminatedRow(row, now).durationMinutes.value;
      0 <= d && d * SecondsPerMinute <= now - row.startTime < (d + 1) * SecondsPerMinute
  {
  }

  /** Terminating by MAC touches exactly the active rows with that MAC, leaves none of them active, and is idempotent. */
  lemma TerminateByMacEffect(sessions: map<nat, SessionRow>, mac: string, now: int)
    ensures var after := TerminateMac(sessions, mac, now);
      after.Keys == sessions.Keys
      && (forall k :: k in sessions ==>
            (after[k] != sessions[k] <==> sessions[k].macAddress == mac && sessions[k].status == Active))
      && (forall k :: k in after && after[k].macAddress == mac ==> after[k].status != Active)
      && TerminateMac(after, mac, now) == after
  {
    var after := TerminateMac(sessions, mac, now);
    forall k | k in sessions
      ensures after[k] != sessions[k] <==> sessions[k].macAddress == mac && sessions[k].status == Active
    {
      if sessions[k].macAddress == mac && sessions[k].status == Active {
        assert after[k].status != sessions[k].status;
      }
    }
  }

  /** The usage update changes only the data column of the one row. */
  lemma SetUsageEffect(sessions: map<nat, SessionRow>, id: nat, dataUsedMb: Option<int>)
    ensures var after := SetUsage(sessions, id, dataUsedMb);
      after.Keys == sessions.Keys
      && (forall k :: k in sessions && k != id ==> after[k] == sessions[k])
      && (id in sessions ==> after[id].dataUsedMb == dataUsedMb && after[id].(dataUsedMb := sessions[id].dataUsedMb) == sessions[id])
  {
  }

  /**
   * The sweep expires exactly the stale active rows, stamps their end time,
   * keeps their duration, leaves every other row alone and is idempotent.
   */
  lemma ExpireStaleEffect(sessions: map<nat, SessionRow>, now: int)
    ensures var after := ExpireStale(sessions, now);
      after.Keys == sessions.Keys
      && (forall k :: k in sessions ==>
            (after[k] != sessions[k] <==> Stale(sessions[k], now))
            && (Stale(sessions[k], now) ==>
                  after[k].status == SessionStatus.Expired && after[k].endTime == Some(now)
                  && after[k].durationMinutes == sessions[k].durationMinutes))
      && (forall k :: k in after ==> !Stale(after[k], now))
      && ExpireStale(after, now) == after
  {
    var after := ExpireStale(sessions, now);
    forall k | k in sessions
      ensures after[k] != sessions[k] <==> Stale(sessions[k], now)
    {
      if Stale(sessions[k], now) {
        assert after[k].status != sessions[k].status;
      }
    }
  }

  /** `if ($controller_id)`: a filter applies only when it is truthy. */
  predicate ControllerFilter(filter: Option<nat>, row: SessionRow) {
    filter.None? || filter.value == 0 || row.controllerId == filter.value
  }

  predicate MacFilter(filter: Option<string>, row: SessionRow) {
    filter.None? || !TruthyStr(filter.value) || row.macAddress == filter.value
  }

  /** The rows `getActive` selects. */
  predicate ActiveSelected(row: SessionRow, controllerId: Option<nat>, mac: Option<string>) {
    row.status == Active && ControllerFilter(controllerId, row) && MacFilter(mac, row)
  }

  function ActiveIds(sessions: map<nat, SessionRow>, controllerId: Option<nat>, mac: Option<string>): set<nat> {
    set k | k in sessions && ActiveSelected(sessions[k], controllerId, mac)
  }

  function ActiveWhere(controllerId: Option<nat>, mac: Option<string>): SessionRow -> bool {
    (row: SessionRow) => ActiveSelected(row, controllerId, mac)
  }

  /** One row of `getActive`: the session and `TIMESTAMPDIFF(MINUTE, start_time, NOW())`. */
  datatype ActiveSession = ActiveSession(id: nat, row: SessionRow, elapsedMinutes: int)

  /** `ORDER BY s.start_time DESC`. */
  function LaterFirst(): (ActiveSession, ActiveSession) -> bool {
    (a: ActiveSession, b: ActiveSession) => a.row.startTime >= b.row.startTime
  }

  lemma LaterFirstOrders()
    ensures Query.TotalPreorder(LaterFirst())
  {
  }

  /** A row of the listing, as `getActive` reports it at time `now`. */
  function Entry(now: int): (nat, SessionRow) -> ActiveSession {
    (id: nat, row: SessionRow) => ActiveSession(id, row, MinutesBetween(row.startTime, now))
  }

  function IdOf(): ActiveSession -> nat {
    (e: ActiveSession) => e.id
  }

  function EntryIds(entries: seq<ActiveSession>): set<nat> {
    set e | e in entries :: e.id
  }

  /** The rows `getStats` aggregates over. */
  predicate StatsSelected(row: SessionRow, controllerId: Option<nat>, startDate: Option<int>, endDate: Option<int>) {
    ControllerFilter(controllerId, row)
    && (startDate.None? || startDate.value <= row.startTime)
    && (endDate.None? || row.startTime <= endDate.value)
  }

  function StatsIds(sessions: map<nat, SessionRow>, controllerId: Option<nat>, startDate: Option<int>, endDate: Option<int>): set<nat> {
    set k | k in sessions && StatsSelected(sessions[k], controllerId, startDate, endDate)
  }

  function ActiveIndicator(sessions: map<nat, SessionRow>): nat -> int {
    (k: nat) => if k in sessions && sessions[k].status == Active then 1 else 0
  }

  function One(): nat -> int {
    (k: nat) => 1
  }

  function DataUsed(sessions: map<nat, SessionRow>): nat -> int {
    (k: nat) => if k in sessions && sessions[k].dataUsedMb.Some? then sessions[k].dataUsedMb.value else 0
  }

  function Duration(sessions: map<nat, SessionRow>): nat -> int {
    (k: nat) => if k in sessions && sessions[k].durationMinutes.Some? then sessions[k].durationMinutes.value else 0
  }

  /** The rows whose column is not NULL. */
  function WithData(sessions: map<nat, SessionRow>): set<nat> {
    set k | k in sessions && sessions[k].dataUsedMb.Some?
  }

  function WithDuration(sessions: map<nat, SessionRow>): set<nat> {
    set k | k in sessions && sessions[k].durationMinutes.Some?
  }

  /** `SUM` over the selected rows: NULL when no selected row has a value. */
  ghost function SumNullable(keys: set<nat>, hasValue: set<nat>, f: nat -> int): Option<int> {
    if keys * hasValue == {} then None else Some(Query.SumOver(keys, f))
  }

  datatype SessionStats = SessionStats(
    totalSessions: nat,
    activeSessions: Option<int>,
    totalDataUsedMb: Option<int>,
    totalDurationMinutes: Option<int>)

  /** Of the selected sessions, the active ones are never more than all of them. */
  lemma ActiveAtMostTotal(sessions: map<nat, SessionRow>, keys: set<nat>)
    ensures 0 <= Query.SumOver(keys, ActiveIndicator(sessions)) <= |keys|
  {
    Query.SumOverMonotone(keys, keys, ActiveIndicator(sessions));
    Query.SumOverLe(keys, ActiveIndicator(sessions), One());
    Query.SumOverOnes(keys, One());
  }

  /** The session store over a database connection, with the public fields `create` inserts. */
  class Session {
    const conn: Db
    var id: Option<nat>
    var controllerId: nat
    var macAddress: string
    var ipAddress: string
    var username: Option<string>
    var planId: Option<nat>
    var voucherId: Option<nat>
    var deviceInfo: Option<Json>

    constructor(db: Db)
      ensures conn == db && id.None?
      ensures username.None? && planId.None? && voucherId.None? && deviceInfo.None?
    {
      conn := db;
      id := None;
      controllerId := 0;
      macAddress := "";
      ipAddress := "";
      username := None;
      planId := None;
      voucherId := None;
      deviceInfo := None;
    }

    /** The row `create` inserts from the object's fields. */
    function NewRow(now: int): SessionRow
      reads this
    {
      SessionRow(controllerId, macAddress, ipAddress, username, planId, voucherId, now, None, None, None, Active, deviceInfo)
    }

    /**
     * `create()`: sanitise the MAC and IP fields (`sanitize` stands for
     * `htmlspecialchars(strip_tags(...))`), insert an active row started now
     * and take its id. `raises` is whether the INSERT raises; the method then
     * never reaches its `return false`.
     */
    method Create(now: int, sanitize: string -> string, raises: bool) returns (r: Exec<bool>)
      requires conn.Valid()
      modifies this, conn`sessions, conn`nextSessionId
      ensures conn.Valid()
      ensures macAddress == sanitize(old(macAddress)) && ipAddress == sanitize(old(ipAddress))
      ensures controllerId == old(controllerId) && username == old(username) && planId == old(planId)
      ensures voucherId == old(voucherId) && deviceInfo == old(deviceInfo)
      ensures r == if raises then Raised else Done(true)
      ensures !raises ==> id == Some(old(conn.nextSessionId)) && id.value !in old(conn.sessions)
                          && conn.sessions == old(conn.sessions)[id.value := NewRow(now)]
                          && conn.nextSessionId == old(conn.nextSessionId) + 1
      ensures raises ==> id == old(id) && conn.sessions == old(conn.sessions) && conn.nextSessionId == old(conn.nextSessionId)
    {
      macAddress := sanitize(macAddress);
      ipAddress := sanitize(ipAddress);
      if raises {
        return Raised;
      }
      var key := conn.nextSessionId;
      conn.sessions := conn.sessions[key := NewRow(now)];
      conn.nextSessionId := key + 1;
      id := Some(key);
      return Done(true);
    }

    /** `terminate($id, $reason)`: the reason is not stored. `raises` is whether the UPDATE raises. */
    method Terminate(sessionId: nat, reason: string, now: int, raises: bool) returns (r: Exec<bool>)
      requires conn.Valid()
      modifies conn`sessions
      ensures conn.Valid()
      ensures r == if raises then Raised else Done(true)
      ensures conn.sessions == if raises then old(conn.sessions) else TerminateById(old(conn.sessions), sessionId, now)
    {
      if raises {
        return Raised;
      }
      conn.sessions := TerminateById(conn.sessions, sessionId, now);
      return Done(true);
    }

    /** `terminateByMac($mac)`. */
    method TerminateByMac(mac: string, now: int, raises: bool) returns (r: Exec<bool>)
      requires conn.Valid()
      modifies conn`sessions
      ensures conn.Valid()
      ensures r == if raises then Raised else Done(true)
      ensures conn.sessions == if raises then old(conn.sessions) else TerminateMac(old(conn.sessions), mac, now)
    {
      if raises {
        return Raised;
      }
      conn.sessions := TerminateMac(conn.sessions, mac, now);
      return Done(true);
    }

    /** `updateUsage($id, $data_used_mb)`; `raises` is whether the UPDATE raises. */
    method UpdateUsage(sessionId: nat, dataUsedMb: Option<int>, raises: bool) returns (r: Exec<bool>)
      requires conn.Valid()
      modifies conn`sessions
      ensures conn.Valid()
      ensures r == if raises then Raised else Done(true)
      ensures conn.sessions == if raises then old(conn.sessions) else SetUsage(old(conn.sessions), sessionId, dataUsedMb)
    {
      if raises {
        return Raised;
      }
      conn.sessions := SetUsage(conn.sessions, sessionId, dataUsedMb);
      return Done(true);
    }

    /** `cleanupExpired()`; `raises` is whether the UPDATE raises. */
    method CleanupExpired(now: int, raises: bool) returns (r: Exec<bool>)
      requires conn.Valid()
      modifies conn`sessions
      ensures conn.Valid()
      ensures r == if raises then Raised else Done(true)
      ensures conn.sessions == if raises then old(conn.sessions) else ExpireStale(old(conn.sessions), now)
    {
      if raises {
        return Raised;
      }
      conn.sessions := ExpireStale(conn.sessions, now);
      return Done(true);
    }

    /**
     * `getActive($controller_id, $mac_address)`: exactly the active sessions
     * passing the filters, once each, latest start first, each with its
     * elapsed minutes.
     */
    method GetActive(controllerId: Option<nat>, mac: Option<string>, now: int) returns (r: seq<ActiveSession>)
      ensures Query.SortedBy(r, LaterFirst())
      ensures EntryIds(r) == ActiveIds(conn.sessions, controllerId, mac)
      ensures |r| == |ActiveIds(conn.sessions, controllerId, mac)|
      ensures forall e :: e in r ==>
        e.id in conn.sessions && e.row == conn.sessions[e.id]
        && e.elapsedMinutes == MinutesBetween(e.row.startTime, now)
    {
      LaterFirstOrders();
      r := Query.SelectOrdered(conn.sessions, ActiveWhere(controllerId, mac), Entry(now), IdOf(), LaterFirst());
      assert EntryIds(r) == (set e | e in r :: IdOf()(e));
      assert Query.SelectedKeys(conn.sessions, ActiveWhere(controllerId, mac)) == ActiveIds(conn.sessions, controllerId, mac);
    }

    /**
     * `getStats($controller_id, $start_date, $end_date)`: counts and sums
     * over the sessions passing the filters. `AVG(duration_minutes)` is not
     * part of this model.
     */
    method GetStats(controllerId: Option<nat>, startDate: Option<int>, endDate: Option<int>) returns (s: SessionStats)
      ensures var keys := StatsIds(conn.sessions, controllerId, startDate, endDate);
        s.totalSessions == |keys|
        && s.activeSessions == (if keys == {} then None else Some(Query.SumOver(keys, ActiveIndicator(conn.sessions))))
        && s.totalDataUsedMb == SumNullable(keys, WithData(conn.sessions), DataUsed(conn.sessions))
        && s.totalDurationMinutes == SumNullable(keys, WithDuration(conn.sessions), Duration(conn.sessions))
      ensures s.activeSessions.Some? ==> 0 <= s.activeSessions.value <= s.totalSessions
    {
      var ss := conn.sessions;
      var keys := StatsIds(ss, controllerId, startDate, endDate);
      var active := Query.SumKeys(keys, ActiveIndicator(ss));
      ActiveAtMostTotal(ss, keys);
      var data := Query.SumKeys(keys, DataUsed(ss));
      var duration := Query.SumKeys(keys, Duration(ss));
      var withData := WithData(ss);
      var withDuration := WithDuration(ss);
      s := SessionStats(
        |keys|,
        if keys == {} then None else Some(active),
        if keys * withData == {} then None else Some(data),
        if keys * withDuration == {} then None else Some(duration));
    }
  }
}
